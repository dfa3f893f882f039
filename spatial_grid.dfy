/**
 * The broad-phase spatial hash grid (`SpatialGrid`): object ids bucketed by
 * the integer cell their position falls in, with a query that gathers the
 * buckets of the 3x3x3 block of cells around a point.
 *
 * The hash table becomes a `map` from cell keys to buckets. A ghost log of
 * the insertions since the last `Clear` is what the buckets are proved
 * against: every bucket holds exactly the ids logged for its cell, in
 * insertion order.
 */
module SpatialHash {
  /** A cell key: the floored cell coordinate on each axis. */
  type Key = (int, int, int)

  /** Object ids are 32-bit unsigned. */
  type Id = x: int | 0 <= x < 0x1_0000_0000

  /** The cell a point falls in: the floor of each coordinate over the cell size. */
  function GetKey(cellSize: real, x: real, y: real, z: real): (k: Key)
    requires cellSize != 0.0
    ensures k.0 as real <= x / cellSize < k.0 as real + 1.0
    ensures k.1 as real <= y / cellSize < k.1 as real + 1.0
    ensures k.2 as real <= z / cellSize < k.2 as real + 1.0
  {
    ((x / cellSize).Floor, (y / cellSize).Floor, (z / cellSize).Floor)
  }

  /** The floor is the only integer with those bounds. */
  lemma FloorUnique(r: real, a: int, b: int)
    requires a as real <= r < a as real + 1.0
    requires b as real <= r < b as real + 1.0
    ensures a == b
  {
  }

  /** Any key satisfying the floor bounds of a point is that point's key. */
  lemma GetKeyUnique(cellSize: real, x: real, y: real, z: real, k: Key)
    requires cellSize != 0.0
    requires k.0 as real <= x / cellSize < k.0 as real + 1.0
    requires k.1 as real <= y / cellSize < k.1 as real + 1.0
    requires k.2 as real <= z / cellSize < k.2 as real + 1.0
    ensures k == GetKey(cellSize, x, y, z)
  {
    var g := GetKey(cellSize, x, y, z);
    FloorUnique(x / cellSize, k.0, g.0);
    FloorUnique(y / cellSize, k.1, g.1);
    FloorUnique(z / cellSize, k.2, g.2);
  }

  /** Two keys within one cell of each other on every axis. */
  predicate Near(k: Key, center: Key) {
    -1 <= k.0 - center.0 <= 1 && -1 <= k.1 - center.1 <= 1 && -1 <= k.2 - center.2 <= 1
  }

  lemma FloorsNear(r: real, q: real, a: int, b: int)
    requires a as real <= r < a as real + 1.0
    requires b as real <= q < b as real + 1.0
    requires -1.0 <= r - q <= 1.0
    ensures -1 <= a - b <= 1
  {
  }

  /**
   * Points no more than one cell size apart on every axis fall in
   * neighbouring cells, so the 27-cell query around one finds the other.
   */
  lemma KeysOfClosePointsNear(cellSize: real, p: (real, real, real), q: (real, real, real))
    requires cellSize > 0.0
    requires -cellSize <= p.0 - q.0 <= cellSize
    requires -cellSize <= p.1 - q.1 <= cellSize
    requires -cellSize <= p.2 - q.2 <= cellSize
    ensures Near(GetKey(cellSize, p.0, p.1, p.2), GetKey(cellSize, q.0, q.1, q.2))
  {
    var kp := GetKey(cellSize, p.0, p.1, p.2);
    var kq := GetKey(cellSize, q.0, q.1, q.2);
    DiffOverCellSize(cellSize, p.0, q.0);
    DiffOverCellSize(cellSize, p.1, q.1);
    DiffOverCellSize(cellSize, p.2, q.2);
    FloorsNear(p.0 / cellSize, q.0 / cellSize, kp.0, kq.0);
    FloorsNear(p.1 / cellSize, q.1 / cellSize, kp.1, kq.1);
    FloorsNear(p.2 / cellSize, q.2 / cellSize, kp.2, kq.2);
  }

  lemma DiffOverCellSize(c: real, a: real, b: real)
    requires c > 0.0 && -c <= a - b <= c
    ensures -1.0 <= a / c - b / c <= 1.0
  {
    var q := a / c - b / c;
    assert q * c == a - b;
  }

  // ---------------------------------------------------------------------
  // Buckets
  // ---------------------------------------------------------------------

  type Cells = map<Key, seq<Id>>

  /** The bucket of a cell; a cell never written has none. */
  function Bucket(cells: Cells, k: Key): seq<Id> {
    if k in cells then cells[k] else []
  }

  /** The cells after `id` is pushed onto the bucket of `k`. */
  function Inserted(cells: Cells, k: Key, id: Id): (r: Cells)
    ensures Bucket(r, k) == Bucket(cells, k) + [id]
    ensures forall j | j != k :: Bucket(r, j) == Bucket(cells, j)
  {
    cells[k := Bucket(cells, k) + [id]]
  }

  /** One insertion: the id and the cell it went to. */
  datatype Entry = Entry(id: Id, key: Key)

  /** The cells built by replaying a log of insertions into an empty table. */
  function CellsOf(log: seq<Entry>): Cells
    decreases |log|
  {
    if |log| == 0 then map[]
    else var e := log[|log| - 1]; Inserted(CellsOf(log[..|log| - 1]), e.key, e.id)
  }

  /** The ids logged for one cell, in log order. */
  function IdsAt(log: seq<Entry>, k: Key): seq<Id>
    decreases |log|
  {
    if |log| == 0 then []
    else IdsAt(log[..|log| - 1], k) + (if log[|log| - 1].key == k then [log[|log| - 1].id] else [])
  }

  /** Every bucket of a replayed table holds exactly its cell's logged ids, in order. */
  lemma {:induction false} BucketsFollowLog(log: seq<Entry>, k: Key)
    ensures Bucket(CellsOf(log), k) == IdsAt(log, k)
    decreases |log|
  {
    if |log| > 0 {
      BucketsFollowLog(log[..|log| - 1], k);
    }
  }

  // ---------------------------------------------------------------------
  // The 27-cell query, as a specification
  // ---------------------------------------------------------------------

  /**
   * The n-th of the 27 neighbour cells in the order the query visits them:
   * x offset outermost, z offset innermost, each running -1, 0, 1.
   */
  function NeighbourKey(center: Key, n: nat): (k: Key)
    requires n < 27
    ensures Near(k, center)
  {
    var dx := if n < 9 then -1 else if n < 18 then 0 else 1;
    var r := n - 9 * (dx + 1);
    var dy := if r < 3 then -1 else if r < 6 then 0 else 1;
    var dz := r - 3 * (dy + 1) - 1;
    (center.0 + dx, center.1 + dy, center.2 + dz)
  }

  /** Where a neighbouring cell comes in the visiting order. */
  function OffsetIndex(k: Key, center: Key): nat
    requires Near(k, center)
  {
    9 * (k.0 - center.0 + 1) + 3 * (k.1 - center.1 + 1) + (k.2 - center.2 + 1)
  }

  /** The visiting order reaches every neighbouring cell, each at exactly one step. */
  lemma NeighbourOrder(center: Key, n: nat, k: Key)
    requires n < 27
    ensures NeighbourKey(center, n) == k <==> Near(k, center) && OffsetIndex(k, center) == n
  {
  }

  /** The position the loops have reached after offsets (dx, dy, dz). */
  lemma OffsetStep(center: Key, dx: int, dy: int, dz: int)
    requires -1 <= dx <= 1 && -1 <= dy <= 1 && -1 <= dz <= 1
    ensures 9 * (dx + 1) + 3 * (dy + 1) + (dz + 1) < 27
    ensures NeighbourKey(center, 9 * (dx + 1) + 3 * (dy + 1) + (dz + 1))
            == (center.0 + dx, center.1 + dy, center.2 + dz)
  {
    var k := (center.0 + dx, center.1 + dy, center.2 + dz);
    NeighbourOrder(center, OffsetIndex(k, center), k);
  }

  /** The buckets of the first n neighbour cells, concatenated in visiting order. */
  function Query(cells: Cells, center: Key, n: nat): seq<Id>
    requires n <= 27
  {
    if n == 0 then [] else Query(cells, center, n - 1) + Bucket(cells, NeighbourKey(center, n - 1))
  }

  /** Over an empty table every query is empty. */
  lemma {:induction false} QueryOfEmpty(center: Key, n: nat)
    requires n <= 27
    ensures Query(map[], center, n) == []
  {
    if n > 0 {
      QueryOfEmpty(center, n - 1);
    }
  }

  /**
   * One insertion adds its id once to a query over a neighbouring cell that
   * the query has reached, and does not change any other query.
   */
  lemma {:induction false} QueryAfterInsert(cells: Cells, k: Key, id: Id, center: Key, n: nat)
    requires n <= 27
    ensures multiset(Query(Inserted(cells, k, id), center, n))
            == multiset(Query(cells, center, n))
               + (if Near(k, center) && OffsetIndex(k, center) < n then multiset{id} else multiset{})
  {
    if n > 0 {
      var nk := NeighbourKey(center, n - 1);
      var ins := Inserted(cells, k, id);
      QueryAfterInsert(cells, k, id, center, n - 1);
      NeighbourOrder(center, n - 1, k);
      var hitBefore := Near(k, center) && OffsetIndex(k, center) < n - 1;
      var hit := Near(k, center) && OffsetIndex(k, center) < n;
      var e0 := if hitBefore then multiset{id} else multiset{};
      var e1 := if hit then multiset{id} else multiset{};
      if nk == k {
        assert !hitBefore && hit;
        assert multiset(Bucket(ins, nk)) == multiset(Bucket(cells, nk)) + multiset{id};
      } else {
        assert hit == hitBefore;
        assert Bucket(ins, nk) == Bucket(cells, nk);
      }
      UnionStep(multiset(Query(cells, center, n - 1)), multiset(Query(ins, center, n - 1)),
                multiset(Bucket(cells, nk)), multiset(Bucket(ins, nk)), e0, e1);
    }
  }

  lemma UnionStep<T>(a: multiset<T>, b: multiset<T>, ca: multiset<T>, cb: multiset<T>,
                     e0: multiset<T>, e1: multiset<T>)
    requires b == a + e0 && cb + e0 == ca + e1
    ensures b + cb == (a + ca) + e1
  {
    forall x: T
      ensures (b + cb)[x] == ((a + ca) + e1)[x]
    {
      assert b[x] == a[x] + e0[x];
      assert (cb + e0)[x] == (ca + e1)[x];
    }
  }

  /** The ids of the logged insertions into cells neighbouring `center`, in log order. */
  function NearIds(log: seq<Entry>, center: Key): seq<Id>
    decreases |log|
  {
    if |log| == 0 then []
    else NearIds(log[..|log| - 1], center)
         + (if Near(log[|log| - 1].key, center) then [log[|log| - 1].id] else [])
  }

  /**
   * The full query returns the ids of the insertions into the 27 cells
   * around `center`, each once per insertion: as multisets the two agree.
   */
  lemma {:induction false} QueryCountsInsertions(log: seq<Entry>, center: Key)
    ensures multiset(Query(CellsOf(log), center, 27)) == multiset(NearIds(log, center))
    decreases |log|
  {
    if |log| == 0 {
      QueryOfEmpty(center, 27);
    } else {
      var e := log[|log| - 1];
      QueryCountsInsertions(log[..|log| - 1], center);
      QueryAfterInsert(CellsOf(log[..|log| - 1]), e.key, e.id, center, 27);
    }
  }

  /** An id is in `NearIds` exactly when some logged insertion of it went to a neighbouring cell. */
  lemma {:induction false} NearIdsMembers(log: seq<Entry>, center: Key, id: Id)
    ensures id in NearIds(log, center) <==>
              exists i | 0 <= i < |log| :: log[i].id == id && Near(log[i].key, center)
    decreases |log|
  {
    if |log| > 0 {
      var pre := log[..|log| - 1];
      NearIdsMembers(pre, center, id);
      if id in NearIds(pre, center) {
        var i :| 0 <= i < |pre| && pre[i].id == id && Near(pre[i].key, center);
        assert log[i] == pre[i];
      }
      if exists i | 0 <= i < |log| :: log[i].id == id && Near(log[i].key, center) {
        var i :| 0 <= i < |log| && log[i].id == id && Near(log[i].key, center);
        if i < |pre| {
          assert pre[i] == log[i];
        }
      }
    }
  }

  /** An id is returned by the query exactly when it was inserted into one of the 27 cells. */
  lemma QueryMembers(log: seq<Entry>, center: Key, id: Id)
    ensures id in Query(CellsOf(log), center, 27) <==>
              exists i | 0 <= i < |log| :: log[i].id == id && Near(log[i].key, center)
  {
    QueryCountsInsertions(log, center);
    NearIdsMembers(log, center, id);
    assert id in Query(CellsOf(log), center, 27) <==> id in multiset(Query(CellsOf(log), center, 27));
    assert id in NearIds(log, center) <==> id in multiset(NearIds(log, center));
  }

  // ---------------------------------------------------------------------
  // The grid
  // ---------------------------------------------------------------------

  class SpatialGrid {
    const cellSize: real
    var cells: Cells
    /** The insertions since the last `Clear`, oldest first. */
    ghost var log: seq<Entry>

    ghost predicate Valid()
      reads this
    {
      cellSize != 0.0 && cells == CellsOf(log)
    }

    /** A grid with no cells. */
    constructor(cellSize: real)
      requires cellSize != 0.0
      ensures Valid()
      ensures this.cellSize == cellSize && cells == map[] && log == []
    {
      this.cellSize := cellSize;
      cells := map[];
      log := [];
    }

    /** Drops every bucket. */
    method Clear()
      requires Valid()
      modifies this
      ensures Valid()
      ensures cells == map[] && log == []
    {
      cells := map[];
      log := [];
    }

    /** Pushes `id` onto the end of the bucket of the cell holding (x, y, z). */
    method Insert(id: Id, x: real, y: real, z: real)
      requires Valid()
      modifies this
      ensures Valid()
      ensures log == old(log) + [Entry(id, GetKey(cellSize, x, y, z))]
      ensures cells == Inserted(old(cells), GetKey(cellSize, x, y, z), id)
    {
      var key := GetKey(cellSize, x, y, z);
      var bucket := if key in cells then cells[key] else [];
      cells := cells[key := bucket + [id]];
      log := log + [Entry(id, key)];
      assert log[..|log| - 1] == old(log);
    }

    /**
     * The contents of the buckets of the 27 cells around the cell of
     * (x, y, z), concatenated in visiting order; the grid is left as it is.
     */
    method QueryNeighbors(x: real, y: real, z: real) returns (results: seq<Id>)
      requires cellSize != 0.0
      ensures results == Query(cells, GetKey(cellSize, x, y, z), 27)
      ensures Valid() ==> multiset(results) == multiset(NearIds(log, GetKey(cellSize, x, y, z)))
    {
      results := [];
      var center := GetKey(cellSize, x, y, z);
      for dx := -1 to 2
        invariant results == Query(cells, center, 9 * (dx + 1))
      {
        for dy := -1 to 2
          invariant results == Query(cells, center, 9 * (dx + 1) + 3 * (dy + 1))
        {
          results := QueryRow(center, dx, dy, results);
        }
      }
      if Valid() {
        QueryCountsInsertions(log, center);
      }
    }

    /** The innermost loop: the three cells (dx, dy, -1..1) around `center`. */
    method QueryRow(center: Key, dx: int, dy: int, prefix: seq<Id>) returns (results: seq<Id>)
      requires -1 <= dx <= 1 && -1 <= dy <= 1
      requires prefix == Query(cells, center, 9 * (dx + 1) + 3 * (dy + 1))
      ensures results == Query(cells, center, 9 * (dx + 1) + 3 * (dy + 1) + 3)
    {
      var n := 9 * (dx + 1) + 3 * (dy + 1);
      results := prefix;
      for dz := -1 to 2
        invariant results == Query(cells, center, n + (dz + 1))
      {
        var key := (center.0 + dx, center.1 + dy, center.2 + dz);
        OffsetStep(center, dx, dy, dz);
        if key in cells {
          results := AppendAll(results, cells[key]);
        }
      }
    }
  }

  /** Pushes the elements of `list` one by one onto the end of `results`. */
  method AppendAll(results: seq<Id>, list: seq<Id>) returns (r: seq<Id>)
    ensures r == results + list
  {
    r := results;
    for j := 0 to |list|
      invariant r == results + list[..j]
    {
      r := r + [list[j]];
      assert list[..j + 1] == list[..j] + [list[j]];
    }
    assert list[..|list|] == list;
  }

  /** After `Clear`, or before any insertion, every query is empty. */
  lemma QueryAfterClear(cellSize: real, x: real, y: real, z: real)
    requires cellSize != 0.0
    ensures Query(CellsOf([]), GetKey(cellSize, x, y, z), 27) == []
  {
    QueryOfEmpty(GetKey(cellSize, x, y, z), 27);
  }
}
