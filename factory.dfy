/**
 * The shape factory: the integer index tables of the sphere, cylinder and
 * ring meshes, the per-type buffer sizes, and the centre/extent a new shape
 * gets on the first ("build the mesh") and the prototype path.
 */
module Factory {
  import opened Vectors
  import opened Shapes
  import opened Wrappers

  const SPHERE_SECTOR_NUM: nat := 36
  const SPHERE_STACK_NUM: nat := 18
  const CIRCLE_TRIANGLE_NUM: nat := 34
  const CIRCLE_VERTEX_NUM: nat := CIRCLE_TRIANGLE_NUM + 2
  /** The ring mesh is eight circles; consecutive circles are joined by a band. */
  const RING_SECTOR_NUM: nat := 8

  /** Vertices of each mesh: (36+1)*(18+1) for the sphere, two circles for the cylinder, eight for the ring. */
  const SPHERE_VERTEX_COUNT: nat := 703
  const CYLINDER_VERTEX_COUNT: nat := 72
  const RING_VERTEX_COUNT: nat := 280

  /** Index counts: 2*3*(STACK-1)*SECTOR, 3*4*CIRCLE_TRIANGLE_NUM, 2*8*3*CIRCLE_TRIANGLE_NUM. */
  const SPHERE_INDEX_COUNT: nat := 3672
  const CYLINDER_INDEX_COUNT: nat := 408
  const RING_INDEX_COUNT: nat := 1632

  /** The literal sizes above are the formulas the mesh parameters give. */
  lemma SizeFormulas()
    ensures SPHERE_VERTEX_COUNT == (SPHERE_SECTOR_NUM + 1) * (SPHERE_STACK_NUM + 1)
    ensures CYLINDER_VERTEX_COUNT == 2 * CIRCLE_VERTEX_NUM
    ensures RING_VERTEX_COUNT == RING_SECTOR_NUM * (CIRCLE_VERTEX_NUM - 1)
    ensures SPHERE_INDEX_COUNT == 2 * 3 * (SPHERE_STACK_NUM - 1) * SPHERE_SECTOR_NUM
    ensures CYLINDER_INDEX_COUNT == CIRCLE_TRIANGLE_NUM * 3 * 4
    ensures RING_INDEX_COUNT == 2 * RING_SECTOR_NUM * CIRCLE_TRIANGLE_NUM * 3
  {
  }

  /** Every entry of `s` is below `bound`. */
  predicate AllBelow(s: seq<nat>, bound: nat) {
    forall k | 0 <= k < |s| :: s[k] < bound
  }

  // ---------------------------------------------------------------------
  // Cube mesh (hand-written constant tables)
  // ---------------------------------------------------------------------

  /** Two triangles per face over the 24 cube vertices (8 corners, three times). */
  const CUBE_INDICES: seq<nat> := [
    4, 6, 5, 7, 5, 6, 0, 1, 2, 3, 2, 1,
    8, 12, 9, 13, 9, 12, 10, 11, 14, 11, 15, 14,
    21, 23, 17, 19, 17, 23, 20, 16, 22, 18, 22, 16]

  /** One normal per cube vertex: 24 vectors, 72 floats. */
  const CUBE_NORMALS: seq<Vec3> := [
    Vec3(0.0, 0.0, -1.0), Vec3(0.0, 0.0, -1.0), Vec3(0.0, 0.0, -1.0), Vec3(0.0, 0.0, -1.0),
    Vec3(0.0, 0.0, 1.0), Vec3(0.0, 0.0, 1.0), Vec3(0.0, 0.0, 1.0), Vec3(0.0, 0.0, 1.0),
    Vec3(-1.0, 0.0, 0.0), Vec3(-1.0, 0.0, 0.0), Vec3(1.0, 0.0, 0.0), Vec3(1.0, 0.0, 0.0),
    Vec3(-1.0, 0.0, 0.0), Vec3(-1.0, 0.0, 0.0), Vec3(1.0, 0.0, 0.0), Vec3(1.0, 0.0, 0.0),
    Vec3(0.0, -1.0, 0.0), Vec3(0.0, 1.0, 0.0), Vec3(0.0, -1.0, 0.0), Vec3(0.0, 1.0, 0.0),
    Vec3(0.0, -1.0, 0.0), Vec3(0.0, 1.0, 0.0), Vec3(0.0, -1.0, 0.0), Vec3(0.0, 1.0, 0.0)]

  // ---------------------------------------------------------------------
  // Sphere index table
  // ---------------------------------------------------------------------

  /** Entries per sector of stack `i`: one triangle on the two pole stacks, two elsewhere. */
  function CellLen(i: nat): nat {
    if i == 0 || i == SPHERE_STACK_NUM - 1 then 3 else 6
  }

  /** Where stack `i` starts writing: the first stack writes 36*3 entries, the next ones 36*6. */
  function StackStart(i: nat): nat {
    if i == 0 then 0 else if i < SPHERE_STACK_NUM then 108 + 216 * (i - 1) else SPHERE_INDEX_COUNT
  }

  /** Position of entry `slot` of sector `j` of stack `i` (the running counter `n`). */
  function SpherePos(i: nat, j: nat, slot: nat): nat {
    StackStart(i) + (if CellLen(i) == 3 then 3 * j else 6 * j) + slot
  }

  /**
   * Entry `slot` of sector `j` of stack `i`. With `k1 = i*(SECTOR+1) + j`
   * on the current stack and `k2 = k1 + SECTOR + 1` on the next one, the
   * cell is the triangle `(k1, k2, k1+1)` except on the first stack,
   * followed by `(k1+1, k2, k2+1)` except on the last stack.
   */
  function SphereEntry(i: nat, j: nat, slot: nat): nat {
    var k1 := 37 * i + j;
    var k2 := k1 + 37;
    if i != 0 && slot < 3 then
      (if slot == 0 then k1 else if slot == 1 then k2 else k1 + 1)
    else
      var t := if i == 0 then slot else slot - 3;
      (if t == 0 then k1 + 1 else if t == 1 then k2 else k2 + 1)
  }

  /** The first `j` sectors of stack `i`, and all earlier stacks, are in place. */
  ghost predicate SpherePrefix(a: seq<nat>, i: nat, j: nat) {
    forall s: nat, t: nat, slot: nat {:trigger SphereEntry(s, t, slot)} |
      (s < i || (s == i && t < j)) && s < SPHERE_STACK_NUM && t < SPHERE_SECTOR_NUM && slot < CellLen(s) ::
      SpherePos(s, t, slot) < |a| && a[SpherePos(s, t, slot)] == SphereEntry(s, t, slot)
  }

  /** Cells come in loop order: every earlier cell lies before the cell `(i, j)`. */
  lemma SpherePosMonotone(s: nat, t: nat, slot: nat, i: nat, j: nat)
    requires s < SPHERE_STACK_NUM && t < SPHERE_SECTOR_NUM && slot < CellLen(s)
    requires s < i || (s == i && t < j)
    ensures SpherePos(s, t, slot) < SpherePos(i, j, 0)
  {
  }

  lemma SpherePrefixStep(before: seq<nat>, after: seq<nat>, i: nat, j: nat)
    requires |before| == |after| == SPHERE_INDEX_COUNT && i < SPHERE_STACK_NUM && j < SPHERE_SECTOR_NUM
    requires SpherePrefix(before, i, j)
    requires forall k | 0 <= k < SpherePos(i, j, 0) :: after[k] == before[k]
    requires forall slot: nat | slot < CellLen(i) :: after[SpherePos(i, j, slot)] == SphereEntry(i, j, slot)
    ensures SpherePrefix(after, i, j + 1)
  {
    forall s: nat, t: nat, slot: nat |
      (s < i || (s == i && t < j)) && s < SPHERE_STACK_NUM && t < SPHERE_SECTOR_NUM && slot < CellLen(s)
      ensures after[SpherePos(s, t, slot)] == SphereEntry(s, t, slot)
    {
      SpherePosMonotone(s, t, slot, i, j);
    }
  }

  lemma SpherePrefixNext(a: seq<nat>, i: nat)
    requires SpherePrefix(a, i, SPHERE_SECTOR_NUM)
    ensures SpherePrefix(a, i + 1, 0)
  {
  }

  /** The stack, sector and slot whose entry lands at position `k`. */
  function SphereStackOf(k: nat): nat {
    if k < 108 then 0 else if k < 3564 then 1 + (k - 108) / 216 else 17
  }

  function SphereSectorOf(k: nat): nat {
    if k < 108 then k / 3 else if k < 3564 then ((k - 108) % 216) / 6 else (k - 3564) / 3
  }

  function SphereSlotOf(k: nat): nat {
    if k < 108 then k % 3 else if k < 3564 then ((k - 108) % 216) % 6 else (k - 3564) % 3
  }

  /** What `InitSphereIndices` leaves in `sphere_indices`, position by position. */
  function SphereIndexTable(): seq<nat> {
    seq(3672, k requires 0 <= k < 3672 => SphereEntry(SphereStackOf(k), SphereSectorOf(k), SphereSlotOf(k)))
  }

  /** Every position is written by exactly one cell of the double loop. */
  lemma SpherePosCovers(k: nat)
    requires k < SPHERE_INDEX_COUNT
    ensures SphereStackOf(k) < SPHERE_STACK_NUM && SphereSectorOf(k) < SPHERE_SECTOR_NUM
    ensures SphereSlotOf(k) < CellLen(SphereStackOf(k))
    ensures SpherePos(SphereStackOf(k), SphereSectorOf(k), SphereSlotOf(k)) == k
  {
  }

  lemma SpherePosInverse(i: nat, j: nat, slot: nat)
    requires i < SPHERE_STACK_NUM && j < SPHERE_SECTOR_NUM && slot < CellLen(i)
    ensures SpherePos(i, j, slot) < SPHERE_INDEX_COUNT
    ensures SphereStackOf(SpherePos(i, j, slot)) == i
    ensures SphereSectorOf(SpherePos(i, j, slot)) == j
    ensures SphereSlotOf(SpherePos(i, j, slot)) == slot
  {
  }

  lemma SpherePrefixIsTable(a: seq<nat>)
    requires |a| == SPHERE_INDEX_COUNT && SpherePrefix(a, SPHERE_STACK_NUM, 0)
    ensures a == SphereIndexTable()
  {
    forall k | 0 <= k < SPHERE_INDEX_COUNT
      ensures a[k] == SphereIndexTable()[k]
    {
      SpherePosCovers(k);
    }
  }

  /**
   * Cell `(i, j)` of the table holds the triangles described by
   * `SphereEntry`, and each of them joins stack `i` to stack `i + 1`:
   * its vertices are among the 2*(SECTOR+1) vertices of those two stacks.
   */
  lemma SphereTableCells(i: nat, j: nat, slot: nat)
    requires i < SPHERE_STACK_NUM && j < SPHERE_SECTOR_NUM && slot < CellLen(i)
    ensures SpherePos(i, j, slot) < |SphereIndexTable()|
    ensures SphereIndexTable()[SpherePos(i, j, slot)] == SphereEntry(i, j, slot)
    ensures 37 * i <= SphereEntry(i, j, slot) < 37 * (i + 2)
  {
    SpherePosInverse(i, j, slot);
  }

  /**
   * The sphere table has 2*3*(STACK-1)*SECTOR entries, the size the index
   * buffer is drawn with, and every entry names one of the 703 vertices.
   */
  lemma SphereIndexTableFacts()
    ensures |SphereIndexTable()| == SPHERE_INDEX_COUNT == GetIndexPointerSize(T_SPHERE)
    ensures AllBelow(SphereIndexTable(), SPHERE_VERTEX_COUNT)
  {
    forall k | 0 <= k < SPHERE_INDEX_COUNT
      ensures SphereIndexTable()[k] < SPHERE_VERTEX_COUNT
    {
      SpherePosCovers(k);
    }
  }

  /** One sector of the sphere loop: the triangles of cell `(i, j)` at position `n`. */
  method WriteSphereCell(a: array<nat>, n: nat, i: nat, j: nat, k1: nat, k2: nat) returns (n': nat)
    requires a.Length == SPHERE_INDEX_COUNT && i < SPHERE_STACK_NUM && j < SPHERE_SECTOR_NUM
    requires n == SpherePos(i, j, 0) && k1 == 37 * i + j && k2 == k1 + 37
    modifies a
    ensures n' == n + CellLen(i)
    ensures forall k | 0 <= k < n :: a[k] == old(a[k])
    ensures forall slot: nat | slot < CellLen(i) :: a[SpherePos(i, j, slot)] == SphereEntry(i, j, slot)
  {
    n' := n;
    if i != 0 {
      a[n'] := k1;
      a[n' + 1] := k2;
      a[n' + 2] := k1 + 1;
      n' := n' + 3;
    }
    if i != SPHERE_STACK_NUM - 1 {
      a[n'] := k1 + 1;
      a[n' + 1] := k2;
      a[n' + 2] := k2 + 1;
      n' := n' + 3;
    }
  }

  /** The inner loop of `InitSphereIndices`: all sectors of stack `i`. */
  method FillSphereStack(a: array<nat>, n0: nat, i: nat) returns (n: nat)
    requires a.Length == SPHERE_INDEX_COUNT && i < SPHERE_STACK_NUM
    requires n0 == StackStart(i) && SpherePrefix(a[..], i, 0)
    modifies a
    ensures n == StackStart(i + 1) && SpherePrefix(a[..], i + 1, 0)
  {
    n := n0;
    var k1: nat := i * 37;
    var k2: nat := k1 + 37;
    for j := 0 to SPHERE_SECTOR_NUM
      invariant k1 == 37 * i + j && k2 == k1 + 37
      invariant n == SpherePos(i, j, 0)
      invariant SpherePrefix(a[..], i, j)
    {
      ghost var before := a[..];
      n := WriteSphereCell(a, n, i, j, k1, k2);
      SpherePrefixStep(before, a[..], i, j);
      k1 := k1 + 1;
      k2 := k2 + 1;
    }
    SpherePrefixNext(a[..], i);
  }

  // ---------------------------------------------------------------------
  // Cylinder index table
  // ---------------------------------------------------------------------

  /** Position of entry `slot` of fan triangle `t` written from `index` (the loop's `i` is `t + 1`). */
  function FanPos(index: nat, t: nat, slot: nat): nat {
    index + 3 * t + slot
  }

  /** Triangle `i = t + 1` of the fan around centre vertex `offset`: `(offset+i, offset, offset+i+1)`. */
  function FanEntry(offset: nat, t: nat, slot: nat): nat {
    if slot == 0 then offset + t + 1 else if slot == 1 then offset else offset + t + 2
  }

  /** Position of entry `slot` of side quad `t`, after the two fans. */
  function SidePos(t: nat, slot: nat): nat {
    204 + 6 * t + slot
  }

  /**
   * Side quad `i = t + 1` joins bottom-circle vertices `i, i+1` to
   * top-circle vertices `CIRCLE_VERTEX_NUM + i, CIRCLE_VERTEX_NUM + i + 1`.
   */
  function SideEntry(t: nat, slot: nat): nat {
    var i := t + 1;
    if slot == 0 then i
    else if slot == 1 then CIRCLE_VERTEX_NUM + i + 1
    else if slot == 2 then i + 1
    else if slot == 3 then CIRCLE_VERTEX_NUM + i
    else if slot == 4 then i
    else CIRCLE_VERTEX_NUM + i + 1
  }

  /** The entry `InitCylinderIndices` leaves at position `k`: bottom fan, top fan, then the side. */
  function CylinderAt(k: nat): nat {
    if k < 102 then FanEntry(0, k / 3, k % 3)
    else if k < 204 then FanEntry(CIRCLE_VERTEX_NUM, (k - 102) / 3, (k - 102) % 3)
    else SideEntry((k - 204) / 6, (k - 204) % 6)
  }

  /** What `InitCylinderIndices` leaves in `cylinder_indices`. */
  function CylinderIndexTable(): seq<nat> {
    seq(408, k requires 0 <= k < 408 => CylinderAt(k))
  }

  /** The bottom fan, the top fan and the side, each written where the loops put it. */
  ghost predicate CylinderParts(a: seq<nat>) {
    |a| == CYLINDER_INDEX_COUNT &&
    (forall t: nat, slot: nat | t < CIRCLE_TRIANGLE_NUM && slot < 3 ::
       a[FanPos(0, t, slot)] == FanEntry(0, t, slot)) &&
    (forall t: nat, slot: nat | t < CIRCLE_TRIANGLE_NUM && slot < 3 ::
       a[FanPos(102, t, slot)] == FanEntry(CIRCLE_VERTEX_NUM, t, slot)) &&
    (forall t: nat, slot: nat | t < CIRCLE_TRIANGLE_NUM && slot < 6 ::
       a[SidePos(t, slot)] == SideEntry(t, slot))
  }

  lemma CylinderPartsIsTable(a: seq<nat>)
    requires CylinderParts(a)
    ensures a == CylinderIndexTable()
  {
    forall k | 0 <= k < CYLINDER_INDEX_COUNT
      ensures a[k] == CylinderIndexTable()[k]
    {
      if k < 102 {
        assert FanPos(0, k / 3, k % 3) == k;
      } else if k < 204 {
        assert FanPos(102, (k - 102) / 3, (k - 102) % 3) == k;
      } else {
        assert SidePos((k - 204) / 6, (k - 204) % 6) == k;
      }
    }
  }

  /**
   * The cylinder table has 12*CIRCLE_TRIANGLE_NUM entries, the size the
   * index buffer is drawn with, all below the 72 cylinder vertices; the
   * bottom fan uses only the bottom circle (0..35) and the top fan only
   * the top circle (36..71).
   */
  lemma CylinderIndexTableFacts()
    ensures |CylinderIndexTable()| == CYLINDER_INDEX_COUNT == GetIndexPointerSize(T_CYLINDER)
    ensures AllBelow(CylinderIndexTable(), CYLINDER_VERTEX_COUNT)
    ensures forall k | 0 <= k < 102 :: CylinderIndexTable()[k] < CIRCLE_VERTEX_NUM
    ensures forall k | 102 <= k < 204 :: CIRCLE_VERTEX_NUM <= CylinderIndexTable()[k]
  {
  }

  /**
   * Writes the fan `(offset+i, offset, offset+i+1)`, i = 1..N, at
   * positions `index..index+3N` and leaves every other entry as it was.
   */
  method AddCircleIndices(a: array<nat>, index: nat, offset: nat)
    requires index + 3 * CIRCLE_TRIANGLE_NUM <= a.Length
    modifies a
    ensures forall t: nat, slot: nat | t < CIRCLE_TRIANGLE_NUM && slot < 3 ::
      a[FanPos(index, t, slot)] == FanEntry(offset, t, slot)
    ensures forall k | 0 <= k < a.Length && (k < index || index + 3 * CIRCLE_TRIANGLE_NUM <= k) :: a[k] == old(a[k])
  {
    var pos := index;
    for i := 1 to CIRCLE_TRIANGLE_NUM + 1
      invariant pos == index + 3 * (i - 1)
      invariant forall t: nat, slot: nat | t < i - 1 && slot < 3 ::
        a[FanPos(index, t, slot)] == FanEntry(offset, t, slot)
      invariant forall k | 0 <= k < a.Length && (k < index || pos <= k) :: a[k] == old(a[k])
    {
      a[pos] := offset + i;
      a[pos + 1] := offset;
      a[pos + 2] := offset + i + 1;
      pos := pos + 3;
    }
  }

  /** The side loop of `InitCylinderIndices`, from position 6*N. */
  method FillCylinderSide(a: array<nat>)
    requires a.Length == CYLINDER_INDEX_COUNT
    modifies a
    ensures forall t: nat, slot: nat | t < CIRCLE_TRIANGLE_NUM && slot < 6 :: a[SidePos(t, slot)] == SideEntry(t, slot)
    ensures forall k | 0 <= k < 204 :: a[k] == old(a[k])
  {
    var pos := 6 * CIRCLE_TRIANGLE_NUM;
    for i := 1 to CIRCLE_TRIANGLE_NUM + 1
      invariant pos == 204 + 6 * (i - 1)
      invariant forall t: nat, slot: nat | t < i - 1 && slot < 6 :: a[SidePos(t, slot)] == SideEntry(t, slot)
      invariant forall k | 0 <= k < 204 :: a[k] == old(a[k])
    {
      a[pos] := i;
      a[pos + 1] := CIRCLE_VERTEX_NUM + i + 1;
      a[pos + 2] := i + 1;
      a[pos + 3] := CIRCLE_VERTEX_NUM + i;
      a[pos + 4] := i;
      a[pos + 5] := CIRCLE_VERTEX_NUM + i + 1;
      pos := pos + 6;
    }
  }

  // ---------------------------------------------------------------------
  // Ring index table
  // ---------------------------------------------------------------------

  /** Position of entry `slot` of triangle pair `i` of band `sector`. */
  function RingPos(sector: nat, i: nat, slot: nat): nat {
    204 * sector + 6 * i + slot
  }

  /**
   * Entry `slot` of the two triangles joining vertex `i` of circle
   * `sector` (`here`) and of the next circle modulo 8 (`next`); each
   * circle has 35 vertices.
   */
  function RingEntry(sector: nat, i: nat, slot: nat): nat {
    var here := (sector % 8) * 35;
    var next := ((sector + 1) % 8) * 35;
    if slot == 0 then i + here
    else if slot == 1 then i + next
    else if slot == 2 then i + 1 + here
    else if slot == 3 then i + next
    else if slot == 4 then i + 1 + next
    else i + 1 + here
  }

  /** The first `i` pairs of band `sector`, and all earlier bands, are in place. */
  ghost predicate RingPrefix(a: seq<nat>, sector: nat, i: nat) {
    forall s: nat, j: nat, slot: nat {:trigger RingEntry(s, j, slot)} |
      (s < sector || (s == sector && j < i)) && j < CIRCLE_TRIANGLE_NUM && slot < 6 ::
      RingPos(s, j, slot) < |a| && a[RingPos(s, j, slot)] == RingEntry(s, j, slot)
  }

  lemma RingPrefixStep(before: seq<nat>, after: seq<nat>, sector: nat, i: nat)
    requires |before| == |after| && RingPos(sector, i, 5) < |after| && i < CIRCLE_TRIANGLE_NUM
    requires RingPrefix(before, sector, i)
    requires forall k | 0 <= k < RingPos(sector, i, 0) :: after[k] == before[k]
    requires forall slot: nat | slot < 6 :: after[RingPos(sector, i, slot)] == RingEntry(sector, i, slot)
    ensures RingPrefix(after, sector, i + 1)
  {
  }

  lemma RingPrefixNext(a: seq<nat>, sector: nat)
    requires RingPrefix(a, sector, CIRCLE_TRIANGLE_NUM)
    ensures RingPrefix(a, sector + 1, 0)
  {
  }

  /** What the index loop of `CreateRing` leaves in `ring_indices`. */
  function RingIndexTable(): seq<nat> {
    seq(1632, k requires 0 <= k < 1632 => RingEntry(k / 204, (k % 204) / 6, k % 6))
  }

  lemma RingPosCovers(k: nat)
    requires k < RING_INDEX_COUNT
    ensures k / 204 < RING_SECTOR_NUM && (k % 204) / 6 < CIRCLE_TRIANGLE_NUM
    ensures RingPos(k / 204, (k % 204) / 6, k % 6) == k
  {
  }

  lemma RingPrefixIsTable(a: seq<nat>)
    requires |a| == RING_INDEX_COUNT && RingPrefix(a, RING_SECTOR_NUM, 0)
    ensures a == RingIndexTable()
  {
    forall k | 0 <= k < RING_INDEX_COUNT
      ensures a[k] == RingIndexTable()[k]
    {
      RingPosCovers(k);
    }
  }

  /**
   * The ring table has 48*CIRCLE_TRIANGLE_NUM entries, the size the index
   * buffer is drawn with, all below the 8*(CIRCLE_VERTEX_NUM-1) ring vertices.
   */
  lemma RingIndexTableFacts()
    ensures |RingIndexTable()| == RING_INDEX_COUNT == GetIndexPointerSize(T_RING)
    ensures AllBelow(RingIndexTable(), RING_VERTEX_COUNT)
  {
  }

  /** Position `RingPos(sector, i, slot)` of the table holds `RingEntry(sector, i, slot)`. */
  lemma RingTableAt(sector: nat, i: nat, slot: nat)
    requires sector < RING_SECTOR_NUM && i < CIRCLE_TRIANGLE_NUM && slot < 6
    ensures RingPos(sector, i, slot) < |RingIndexTable()|
    ensures RingIndexTable()[RingPos(sector, i, slot)] == RingEntry(sector, i, slot)
  {
    var k := RingPos(sector, i, slot);
    assert k / 204 == sector && (k % 204) / 6 == i && k % 6 == slot;
  }

  /**
   * The last band closes the ring: the triangles of sector 7 join circle 7
   * (vertices 245..279) to circle 0 (vertices 0..34), not to a ninth circle.
   */
  lemma RingLastSectorWraps(i: nat)
    requires i < CIRCLE_TRIANGLE_NUM
    ensures RingPos(7, i, 5) < |RingIndexTable()|
    ensures RingIndexTable()[RingPos(7, i, 0)] == 245 + i && RingIndexTable()[RingPos(7, i, 1)] == i
    ensures RingIndexTable()[RingPos(7, i, 4)] == i + 1 && RingIndexTable()[RingPos(7, i, 5)] == 246 + i
  {
    RingTableAt(7, i, 0);
    RingTableAt(7, i, 1);
    RingTableAt(7, i, 4);
    RingTableAt(7, i, 5);
  }

  method WriteRingCell(a: array<nat>, pos: nat, sector: nat, i: nat) returns (pos': nat)
    requires pos == RingPos(sector, i, 0) && pos + 6 <= a.Length
    modifies a
    ensures pos' == pos + 6
    ensures forall k | 0 <= k < pos :: a[k] == old(a[k])
    ensures forall slot: nat | slot < 6 :: a[RingPos(sector, i, slot)] == RingEntry(sector, i, slot)
  {
    var here := (sector % 8) * 35;
    var next := ((sector + 1) % 8) * 35;
    a[pos] := i + here;
    a[pos + 1] := i + next;
    a[pos + 2] := i + 1 + here;
    a[pos + 3] := i + next;
    a[pos + 4] := i + 1 + next;
    a[pos + 5] := i + 1 + here;
    pos' := pos + 6;
  }

  /** The inner loop of the ring index loop: the band of sector `sector`. */
  method FillRingSector(a: array<nat>, pos0: nat, sector: nat) returns (pos: nat)
    requires a.Length == RING_INDEX_COUNT && sector < RING_SECTOR_NUM
    requires pos0 == RingPos(sector, 0, 0) && RingPrefix(a[..], sector, 0)
    modifies a
    ensures pos == RingPos(sector + 1, 0, 0) && RingPrefix(a[..], sector + 1, 0)
  {
    pos := pos0;
    for i := 0 to CIRCLE_TRIANGLE_NUM
      invariant pos == RingPos(sector, i, 0)
      invariant RingPrefix(a[..], sector, i)
    {
      ghost var before := a[..];
      pos := WriteRingCell(a, pos, sector, i);
      RingPrefixStep(before, a[..], sector, i);
    }
    RingPrefixNext(a[..], sector);
  }


  /** Both loops of the ring index fill: all eight bands in order. */
  method FillRingBands(a: array<nat>)
    requires a.Length == RING_INDEX_COUNT
    modifies a
    ensures RingPrefix(a[..], RING_SECTOR_NUM, 0)
  {
    var pos := 0;
    for sector := 0 to RING_SECTOR_NUM
      invariant pos == 204 * sector
      invariant RingPrefix(a[..], sector, 0)
    {
      pos := FillRingSector(a, pos, sector);
    }
  }

  // ---------------------------------------------------------------------
  // Per-type buffer sizes
  // ---------------------------------------------------------------------

  /** Index count a shape type is drawn with; 0 for anything that is not a shape type. */
  function GetIndexPointerSize(shapeType: int): (n: nat)
    ensures n == 0 <==> !IsShapeType(shapeType)
  {
    if shapeType == T_CUBE then 36
    else if shapeType == T_CYLINDER then CYLINDER_INDEX_COUNT
    else if shapeType == T_SPHERE then SPHERE_INDEX_COUNT
    else if shapeType == T_RING then RING_INDEX_COUNT
    else 0
  }

  /** Each index table is exactly as long as the count it is drawn with. */
  lemma IndexTablesMatchSizes()
    ensures |CUBE_INDICES| == GetIndexPointerSize(T_CUBE)
    ensures |SphereIndexTable()| == GetIndexPointerSize(T_SPHERE)
    ensures |CylinderIndexTable()| == GetIndexPointerSize(T_CYLINDER)
    ensures |RingIndexTable()| == GetIndexPointerSize(T_RING)
  {
    SphereIndexTableFacts();
    CylinderIndexTableFacts();
    RingIndexTableFacts();
  }

  /** Number of vertex floats a first-path shape is built from (`elementSize`). */
  function VertexFloatCount(shapeType: int): nat {
    if shapeType == T_CUBE then 24 * 3
    else if shapeType == T_SPHERE then SPHERE_VERTEX_COUNT * 3
    else if shapeType == T_CYLINDER then CYLINDER_VERTEX_COUNT * 3
    else if shapeType == T_RING then RING_VERTEX_COUNT * 3
    else 0
  }

  /** Normal float count as written: the cube reports 24, the number of its vertices. */
  function GetNormalPointerSize(shapeType: int): (n: nat)
    ensures n == 0 <==> !IsShapeType(shapeType)
  {
    if shapeType == T_CUBE then 24
    else if shapeType == T_CYLINDER then 216
    else if shapeType == T_SPHERE then 2109
    else if shapeType == T_RING then 840
    else 0
  }

  /**
   * As written, the cube's normal count is a third of the 72 floats of
   * `cube_normals`, so only the first 8 of its 24 normals reach the buffer,
   * while every other type uploads one float per vertex float.
   */
  lemma CubeNormalCountAsWritten()
    ensures 3 * GetNormalPointerSize(T_CUBE) == 3 * |CUBE_NORMALS|
    ensures GetNormalPointerSize(T_CUBE) < 3 * |CUBE_NORMALS|
    ensures GetNormalPointerSize(T_CUBE) != VertexFloatCount(T_CUBE)
    ensures forall t | t != T_CUBE :: GetNormalPointerSize(t) == VertexFloatCount(t)
  {
  }

  /** The normal float count of each type: one normal (three floats) per vertex. */
  function NormalFloatCount(shapeType: int): (n: nat)
    ensures n == VertexFloatCount(shapeType)
    ensures shapeType == T_CUBE ==> n == 3 * |CUBE_NORMALS|
    ensures shapeType != T_CUBE ==> n == GetNormalPointerSize(shapeType)
  {
    if shapeType == T_CUBE then 72 else GetNormalPointerSize(shapeType)
  }

  /** The sizes handed to the renderer's buffer creation for a shape. */
  datatype ObjectBuffer = ObjectBuffer(vertexFloats: int, normalFloats: nat, indexCount: nat)

  function BufferOf(s: Shape): ObjectBuffer {
    ObjectBuffer(s.size, GetNormalPointerSize(s.shapeType), GetIndexPointerSize(s.shapeType))
  }

  /** The same sizes with the intended normal count, one normal float per vertex float. */
  function CorrectedBufferOf(s: Shape): ObjectBuffer {
    ObjectBuffer(s.size, NormalFloatCount(s.shapeType), GetIndexPointerSize(s.shapeType))
  }

  // ---------------------------------------------------------------------
  // Creating shapes
  // ---------------------------------------------------------------------

  /** `CreateShapeObject`: a default shape with the given size, type, centre and extent. */
  function ShapeObject(elementSize: nat, shapeType: int, center: Vec3, d: real): Shape {
    DefaultShape().(size := elementSize, shapeType := shapeType, center := center, d := d)
  }

  /** A copy of a prototype whose model matrix is `translate(I, at) * scale(factors)`. */
  function Placed(p: Shape, at: Vec3, factors: Vec3, center: Vec3): Shape {
    p.(matrices := p.matrices.(model := Product(Product(Identity, Translation(at)), Scaling(factors))),
       center := center)
  }

  /** Which shapes still have their mesh to build (the `first*` flags). */
  datatype Flags = Flags(cube: bool, sphere: bool, cylinder: bool, ring: bool)

  const AllFirst: Flags := Flags(true, true, true, true)
  const NoneFirst: Flags := Flags(false, false, false, false)

  /**
   * `CreateCube`: the first call builds the mesh; later calls copy
   * `Prototypes.at(T_CUBE)`, which throws (None) when there is none.
   */
  function CubeShape(first: bool, protos: seq<Shape>, x0: real, y0: real, z0: real, size: real): Option<Shape> {
    var center := Vec3(x0 + size / 2.0, y0 + size / 2.0, z0 + size / 2.0);
    if first then Some(ShapeObject(VertexFloatCount(T_CUBE), T_CUBE, center, size))
    else if T_CUBE < |protos| then
      Some(Placed(protos[T_CUBE], Vec3(x0, y0, z0), Vec3(size, size, size), center).(d := size))
    else None
  }

  function SphereShape(first: bool, protos: seq<Shape>, x0: real, y0: real, z0: real, radius: real): Option<Shape> {
    var center := Vec3(x0, y0, z0);
    if first then Some(ShapeObject(VertexFloatCount(T_SPHERE), T_SPHERE, center, 2.0 * radius))
    else if T_SPHERE < |protos| then
      Some(Placed(protos[T_SPHERE], center, Vec3(radius, radius, radius), center).(d := 2.0 * radius))
    else None
  }

  function CylinderShape(first: bool, protos: seq<Shape>, x: real, y: real, z: real, radius: real, height: real): Option<Shape> {
    var center := Vec3(x, y + height / 2.0, z);
    if first then Some(ShapeObject(VertexFloatCount(T_CYLINDER), T_CYLINDER, center, 2.0 * radius))
    else if T_CYLINDER < |protos| then
      Some(Placed(protos[T_CYLINDER], center, Vec3(radius, height / 2.0, radius), center).(d := 2.0 * radius))
    else None
  }

  /** The prototype path of `CreateRing` sets only the model matrix and the centre. */
  function RingShape(first: bool, protos: seq<Shape>, x: real, y: real, z: real, r1: real, r2: real): Option<Shape> {
    var center := Vec3(x, y, z);
    if first then Some(ShapeObject(VertexFloatCount(T_RING), T_RING, center, r1).(d2 := r2))
    else if T_RING < |protos| then
      Some(Placed(protos[T_RING], center, Vec3(r1, 4.0 * r2, r1), center))
    else None
  }

  /** The type `CreateShape` builds: an unknown code falls back to a cube. */
  function ShapeKind(shapeType: int): (k: int)
    ensures IsShapeType(k)
    ensures IsShapeType(shapeType) ==> k == shapeType
    ensures !IsShapeType(shapeType) ==> k == T_CUBE
  {
    if IsShapeType(shapeType) then shapeType else T_CUBE
  }

  function FirstOf(f: Flags, kind: int): bool {
    if kind == T_SPHERE then f.sphere
    else if kind == T_CYLINDER then f.cylinder
    else if kind == T_RING then f.ring
    else f.cube
  }

  /** The flags after a shape of `kind` was built on the first path. */
  function Cleared(f: Flags, kind: int): (g: Flags)
    ensures !FirstOf(g, kind)
    ensures forall k | IsShapeType(k) && k != ShapeKind(kind) :: FirstOf(g, k) == FirstOf(f, k)
  {
    if kind == T_SPHERE then f.(sphere := false)
    else if kind == T_CYLINDER then f.(cylinder := false)
    else if kind == T_RING then f.(ring := false)
    else f.(cube := false)
  }

  /**
   * The two random draws of the ring branch of `CreateShape`: a jitter in
   * [0, 1] and a divisor in 3..10.
   */
  predicate RingDrawOk(divisor: int) {
    3 <= divisor <= 10
  }

  /**
   * `CreateShape(x, y, z, size, type)`. The ring branch ignores `x, y, z`
   * and is placed at `(jitter + 5, 2*r2 + 5, r1 + 5)` with `r1 = size/2`,
   * `r2 = r1/divisor`.
   */
  function CreateShapeResult(f: Flags, protos: seq<Shape>, x: real, y: real, z: real,
                             shapeSize: int, shapeType: int, jitter: real, divisor: int): Option<Shape>
    requires RingDrawOk(divisor)
  {
    var s := shapeSize as real;
    var kind := ShapeKind(shapeType);
    if kind == T_SPHERE then
      SphereShape(f.sphere, protos, x + s / 2.0, y + s / 2.0, z + s / 2.0, s / 2.0)
    else if kind == T_CYLINDER then
      CylinderShape(f.cylinder, protos, x + s / 2.0, y, z + s / 2.0, s / 2.0, s)
    else if kind == T_RING then
      var r1 := 0.5 * s;
      var r2 := r1 / divisor as real;
      RingShape(f.ring, protos, jitter + 5.0, 2.0 * r2 + 5.0, r1 + 5.0, r1, r2)
    else
      CubeShape(f.cube, protos, x, y, z, s)
  }

  /** The flags after `CreateShape`: the first path clears the flag of the kind it built. */
  function CreateShapeFlags(f: Flags, shapeType: int): Flags {
    var kind := ShapeKind(shapeType);
    if FirstOf(f, kind) then Cleared(f, kind) else f
  }

  /**
   * For a cube, sphere, cylinder or unknown type, both paths put the
   * centre at `(x + s/2, y + s/2, z + s/2)` with extent `d == s`; a
   * shape is produced exactly when the mesh is still to be built or the
   * prototype exists. A first-path shape has the kind's type and no
   * speed; the normal count handed to its buffer agrees with its vertex
   * count for every kind but the cube, and with the intended count for
   * every kind.
   */
  lemma CreateShapeExtent(f: Flags, protos: seq<Shape>, x: real, y: real, z: real,
                          shapeSize: int, shapeType: int, jitter: real, divisor: int)
    requires RingDrawOk(divisor) && ShapeKind(shapeType) != T_RING
    ensures var r := CreateShapeResult(f, protos, x, y, z, shapeSize, shapeType, jitter, divisor);
      (r.Some? <==> FirstOf(f, ShapeKind(shapeType)) || ShapeKind(shapeType) < |protos|) &&
      (r.Some? ==>
        r.value.center == Vec3(x + shapeSize as real / 2.0, y + shapeSize as real / 2.0, z + shapeSize as real / 2.0) &&
        r.value.d == shapeSize as real) &&
      (r.Some? && FirstOf(f, ShapeKind(shapeType)) ==>
        r.value.shapeType == ShapeKind(shapeType) && r.value.speed == Zero &&
        (BufferOf(r.value).normalFloats == r.value.size <==> ShapeKind(shapeType) != T_CUBE) &&
        CorrectedBufferOf(r.value).normalFloats == r.value.size)
  {
  }

  /**
   * A ring built from the prototype keeps the prototype's extents `d`
   * and `d2`, whatever the requested size, and its centre does not
   * depend on `x, y, z`.
   */
  lemma RingFromPrototype(f: Flags, protos: seq<Shape>, x: real, y: real, z: real,
                          shapeSize: int, jitter: real, divisor: int)
    requires RingDrawOk(divisor) && !f.ring && T_RING < |protos|
    ensures var r := CreateShapeResult(f, protos, x, y, z, shapeSize, T_RING, jitter, divisor);
      r.Some? && r.value.d == protos[T_RING].d && r.value.d2 == protos[T_RING].d2 &&
      r.value.center.x == jitter + 5.0 &&
      r == CreateShapeResult(f, protos, 0.0, 0.0, 0.0, shapeSize, T_RING, jitter, divisor)
  {
  }

  /** The four prototypes `InitPrototypes` records on a fresh factory. */
  function StandardPrototypes(): seq<Shape> {
    [CubeShape(true, [], 0.0, 0.0, 0.0, 1.0).value,
     SphereShape(true, [], 0.0, 0.0, 0.0, 1.0).value,
     CylinderShape(true, [], 0.0, 0.0, 0.0, 1.0, 1.0).value,
     RingShape(true, [], 0.0, 0.0, 0.0, 1.0, 0.3).value]
  }

  /**
   * Prototype `k` is of type `k`, so `Prototypes.at(T)` is the shape of
   * type `T`; the ring prototype has `d == 1` and `d2 == 0.3`, which every
   * later ring inherits.
   */
  lemma StandardPrototypesFacts()
    ensures |StandardPrototypes()| == 4
    ensures forall k | 0 <= k < 4 :: StandardPrototypes()[k].shapeType == k
    ensures StandardPrototypes()[T_RING].d == 1.0 && StandardPrototypes()[T_RING].d2 == 0.3
    ensures forall k | 0 <= k < 3 :: StandardPrototypes()[k].d2 == 0.0
  {
  }

  /** `SetColor`: the shape with exactly its four colour components replaced. */
  function SetColor(shape: Shape, r: real, g: real, b: real, a: real): (s: Shape)
    ensures s.color == Color(r, g, b, a)
    ensures s.(color := shape.color) == shape
  {
    shape.(color := Color(r, g, b, a))
  }

  /** The random values `CreateRandomShape` draws, in draw order. */
  datatype RandomDraw = RandomDraw(shapeType: int, shapeSize: int, r: real, g: real, b: real,
                                   vx: real, vy: real, vz: real, ringJitter: real, ringDivisor: int)

  /** The ranges the draws come from. */
  predicate DrawOk(draw: RandomDraw) {
    0 <= draw.shapeType <= 3 && 1 <= draw.shapeSize <= 10 &&
    0.0 <= draw.r <= 1.0 && 0.0 <= draw.g <= 1.0 && 0.0 <= draw.b <= 1.0 &&
    0.0 <= draw.vx <= 0.9 && 0.0 <= draw.vy <= 0.9 && 0.0 <= draw.vz <= 0.9 &&
    0.0 <= draw.ringJitter <= 1.0 && RingDrawOk(draw.ringDivisor)
  }

  /** `CreateRandomShape`: `CreateShape`, then an opaque colour and the drawn speed. */
  function RandomShapeResult(f: Flags, protos: seq<Shape>, x: real, y: real, z: real, draw: RandomDraw): Option<Shape>
    requires DrawOk(draw)
  {
    var r := CreateShapeResult(f, protos, x, y, z, draw.shapeSize, draw.shapeType, draw.ringJitter, draw.ringDivisor);
    if r.None? then None
    else Some(SetColor(r.value, draw.r, draw.g, draw.b, 1.0).(speed := Vec3(draw.vx, draw.vy, draw.vz)))
  }

  /**
   * A random shape is the shape `CreateShape` builds, recoloured opaque
   * and moving with the drawn speed; nothing else about it changes.
   */
  lemma RandomShapeFacts(f: Flags, protos: seq<Shape>, x: real, y: real, z: real, draw: RandomDraw)
    requires DrawOk(draw)
    ensures var r := RandomShapeResult(f, protos, x, y, z, draw);
      var c := CreateShapeResult(f, protos, x, y, z, draw.shapeSize, draw.shapeType, draw.ringJitter, draw.ringDivisor);
      r.Some? == c.Some? &&
      (r.Some? ==> r.value.color == Color(draw.r, draw.g, draw.b, 1.0) &&
                   r.value.speed == Vec3(draw.vx, draw.vy, draw.vz) &&
                   SameGeometry(r.value, c.value) && r.value.shapeType == c.value.shapeType)
  {
  }

  /**
   * Only a missing prototype makes `CreateRandomShape` fail, and then the
   * first-build flags are left as they were.
   */
  lemma RandomShapeFailureKeepsFlags(f: Flags, protos: seq<Shape>, x: real, y: real, z: real, draw: RandomDraw)
    requires DrawOk(draw)
    ensures RandomShapeResult(f, protos, x, y, z, draw).None? <==>
              !FirstOf(f, ShapeKind(draw.shapeType)) && ShapeKind(draw.shapeType) >= |protos|
    ensures RandomShapeResult(f, protos, x, y, z, draw).None? ==> CreateShapeFlags(f, draw.shapeType) == f
  {
  }

  /** Every shape carries one of the four type codes. */
  predicate AllTyped(s: seq<Shape>) {
    forall k | 0 <= k < |s| :: IsShapeType(s[k].shapeType)
  }

  /**
   * With prototypes of valid types, whatever `CreateShape` and
   * `CreateRandomShape` produce has a valid type too, so adding it to the
   * per-type lists never fails.
   */
  lemma CreatedShapesTyped(f: Flags, protos: seq<Shape>, x: real, y: real, z: real, draw: RandomDraw)
    requires AllTyped(protos) && DrawOk(draw)
    ensures var c := CreateShapeResult(f, protos, x, y, z, draw.shapeSize, draw.shapeType, draw.ringJitter, draw.ringDivisor);
            c.Some? ==> IsShapeType(c.value.shapeType)
    ensures var r := RandomShapeResult(f, protos, x, y, z, draw);
            r.Some? ==> IsShapeType(r.value.shapeType)
  {
  }

  /** Equal everywhere except colour and speed. */
  predicate SameGeometry(a: Shape, b: Shape) {
    a.size == b.size && a.center == b.center && a.scale == b.scale &&
    a.matrices == b.matrices && a.d == b.d && a.d2 == b.d2
  }

  // ---------------------------------------------------------------------
  // The factory object
  // ---------------------------------------------------------------------

  class ShapeFactory {
    var prototypes: seq<Shape>
    var flags: Flags
    const sphereIndices: array<nat>
    const cylinderIndices: array<nat>
    const ringIndices: array<nat>

    /**
     * Every cell of the three index tables written by the fill loops
     * holds its entry; the ring table only once the first ring is made.
     */
    ghost predicate Valid()
      reads this, sphereIndices, cylinderIndices, ringIndices
    {
      sphereIndices != ringIndices && cylinderIndices != ringIndices &&
      sphereIndices.Length == SPHERE_INDEX_COUNT &&
      SpherePrefix(sphereIndices[..], SPHERE_STACK_NUM, 0) &&
      CylinderParts(cylinderIndices[..]) &&
      ringIndices.Length == RING_INDEX_COUNT &&
      (!flags.ring ==> RingPrefix(ringIndices[..], RING_SECTOR_NUM, 0))
    }

    /** The tables are the closed-form ones. */
    lemma TablesInClosedForm()
      requires Valid()
      ensures sphereIndices[..] == SphereIndexTable()
      ensures cylinderIndices[..] == CylinderIndexTable()
      ensures !flags.ring ==> ringIndices[..] == RingIndexTable()
    {
      SpherePrefixIsTable(sphereIndices[..]);
      CylinderPartsIsTable(cylinderIndices[..]);
      if !flags.ring {
        RingPrefixIsTable(ringIndices[..]);
      }
    }

    /** The constructor fills the sphere and cylinder index tables. */
    constructor()
      ensures Valid()
      ensures prototypes == [] && flags == AllFirst
      ensures fresh(sphereIndices) && fresh(cylinderIndices) && fresh(ringIndices)
    {
      prototypes := [];
      flags := AllFirst;
      sphereIndices := new nat[SPHERE_INDEX_COUNT](_ => 0);
      cylinderIndices := new nat[CYLINDER_INDEX_COUNT](_ => 0);
      ringIndices := new nat[RING_INDEX_COUNT](_ => 0);
      new;
      InitSphereIndices();
      InitCylinderIndices();
    }

    method InitSphereIndices()
      requires sphereIndices.Length == SPHERE_INDEX_COUNT
      modifies sphereIndices
      ensures SpherePrefix(sphereIndices[..], SPHERE_STACK_NUM, 0)
    {
      var a := sphereIndices;
      var n := 0;
      for i := 0 to SPHERE_STACK_NUM
        invariant n == StackStart(i)
        invariant SpherePrefix(a[..], i, 0)
      {
        n := FillSphereStack(a, n, i);
      }
    }

    method InitCylinderIndices()
      requires cylinderIndices.Length == CYLINDER_INDEX_COUNT
      modifies cylinderIndices
      ensures CylinderParts(cylinderIndices[..])
    {
      var a := cylinderIndices;
      AddCircleIndices(a, 0, 0);
      ghost var bottom := a[..];
      AddCircleIndices(a, 3 * CIRCLE_TRIANGLE_NUM, CIRCLE_VERTEX_NUM);
      assert forall k | 0 <= k < 3 * CIRCLE_TRIANGLE_NUM :: a[k] == bottom[k];
      ghost var fans := a[..];
      FillCylinderSide(a);
      assert forall k | 0 <= k < 6 * CIRCLE_TRIANGLE_NUM :: a[k] == fans[k];
    }

    method CreateCube(x0: real, y0: real, z0: real, size: real) returns (r: Option<Shape>)
      requires Valid()
      modifies this
      ensures Valid() && prototypes == old(prototypes)
      ensures r == CubeShape(old(flags.cube), prototypes, x0, y0, z0, size)
      ensures flags == if old(flags.cube) then old(flags).(cube := false) else old(flags)
    {
      r := CubeShape(flags.cube, prototypes, x0, y0, z0, size);
      if flags.cube {
        flags := flags.(cube := false);
      }
    }

    method CreateSphere(x0: real, y0: real, z0: real, radius: real) returns (r: Option<Shape>)
      requires Valid()
      modifies this
      ensures Valid() && prototypes == old(prototypes)
      ensures r == SphereShape(old(flags.sphere), prototypes, x0, y0, z0, radius)
      ensures flags == if old(flags.sphere) then old(flags).(sphere := false) else old(flags)
    {
      r := SphereShape(flags.sphere, prototypes, x0, y0, z0, radius);
      if flags.sphere {
        flags := flags.(sphere := false);
      }
    }

    method CreateCylinder(x: real, y: real, z: real, radius: real, height: real) returns (r: Option<Shape>)
      requires Valid()
      modifies this
      ensures Valid() && prototypes == old(prototypes)
      ensures r == CylinderShape(old(flags.cylinder), prototypes, x, y, z, radius, height)
      ensures flags == if old(flags.cylinder) then old(flags).(cylinder := false) else old(flags)
    {
      r := CylinderShape(flags.cylinder, prototypes, x, y, z, radius, height);
      if flags.cylinder {
        flags := flags.(cylinder := false);
      }
    }

    /** The first call also fills the ring index table. */
    method CreateRing(x: real, y: real, z: real, r1: real, r2: real) returns (r: Option<Shape>)
      requires Valid()
      modifies this, ringIndices
      ensures Valid() && prototypes == old(prototypes)
      ensures r == RingShape(old(flags.ring), prototypes, x, y, z, r1, r2)
      ensures flags == if old(flags.ring) then old(flags).(ring := false) else old(flags)
      ensures !old(flags.ring) ==> unchanged(ringIndices)
    {
      r := RingShape(flags.ring, prototypes, x, y, z, r1, r2);
      if flags.ring {
        FillRingBands(ringIndices);
        flags := flags.(ring := false);
      }
    }

    method CreateShape(x: real, y: real, z: real, shapeSize: int, shapeType: int,
                       jitter: real, divisor: int) returns (r: Option<Shape>)
      requires Valid() && RingDrawOk(divisor)
      modifies this, ringIndices
      ensures Valid() && prototypes == old(prototypes)
      ensures r == CreateShapeResult(old(flags), prototypes, x, y, z, shapeSize, shapeType, jitter, divisor)
      ensures flags == CreateShapeFlags(old(flags), shapeType)
    {
      var s := shapeSize as real;
      var kind := ShapeKind(shapeType);
      if kind == T_SPHERE {
        r := CreateSphere(x + s / 2.0, y + s / 2.0, z + s / 2.0, s / 2.0);
      } else if kind == T_CYLINDER {
        r := CreateCylinder(x + s / 2.0, y, z + s / 2.0, s / 2.0, s);
      } else if kind == T_RING {
        var r1 := 0.5 * s;
        var r2 := r1 / divisor as real;
        r := CreateRing(jitter + 5.0, 2.0 * r2 + 5.0, r1 + 5.0, r1, r2);
      } else {
        r := CreateCube(x, y, z, s);
      }
    }

    method CreateRandomShape(x: real, y: real, z: real, draw: RandomDraw) returns (r: Option<Shape>)
      requires Valid() && DrawOk(draw)
      modifies this, ringIndices
      ensures Valid() && prototypes == old(prototypes)
      ensures r == RandomShapeResult(old(flags), prototypes, x, y, z, draw)
      ensures flags == CreateShapeFlags(old(flags), draw.shapeType)
    {
      r := CreateShape(x, y, z, draw.shapeSize, draw.shapeType, draw.ringJitter, draw.ringDivisor);
      if r.Some? {
        r := Some(SetColor(r.value, draw.r, draw.g, draw.b, 1.0).(speed := Vec3(draw.vx, draw.vy, draw.vz)));
      }
    }

    /**
     * Builds and records one shape of each type. A missing prototype makes
     * the corresponding `Create*` throw (`ok == false`), leaving the
     * prototypes recorded so far. On a fresh factory every call takes the
     * first path.
     */
    method InitPrototypes() returns (ok: bool)
      requires Valid()
      modifies this, ringIndices
      ensures Valid()
      ensures old(flags) == AllFirst ==>
        ok && prototypes == old(prototypes) + StandardPrototypes() && flags == NoneFirst
      ensures ok ==> |prototypes| == |old(prototypes)| + 4 && prototypes[..|old(prototypes)|] == old(prototypes)
    {
      ghost var p0 := prototypes;
      var c := CreateCube(0.0, 0.0, 0.0, 1.0);
      if c.None? {
        return false;
      }
      AddPrototype(c.value);
      var s := CreateSphere(0.0, 0.0, 0.0, 1.0);
      if s.None? {
        return false;
      }
      AddPrototype(s.value);
      var y := CreateCylinder(0.0, 0.0, 0.0, 1.0, 1.0);
      if y.None? {
        return false;
      }
      AddPrototype(y.value);
      var g := CreateRing(0.0, 0.0, 0.0, 1.0, 0.3);
      if g.None? {
        return false;
      }
      AddPrototype(g.value);
      assert prototypes == p0 + [c.value, s.value, y.value, g.value];
      assert prototypes[..|p0|] == p0;
      ok := true;
    }

    /** `Prototypes.push_back`. */
    method AddPrototype(p: Shape)
      requires Valid()
      modifies this
      ensures Valid() && prototypes == old(prototypes) + [p] && flags == old(flags)
    {
      prototypes := prototypes + [p];
    }
  }
}
