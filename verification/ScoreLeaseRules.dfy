/** What a join demands of its leases, told on frames, rows, columns and bytes. */
module ScoreLeaseRules {
  import opened Options
  import opened ScoreIndex
  import opened ScoreJoin
  import opened ScoreLeases
  import opened ScoreLeaseWriter

  // One lease

  /** The block lies in one cell of the grid, the cell of row `i` and column `j`. */
  predicate InCell(r: Row, block: nat, i: nat, j: nat) {
    && i * block <= r.y && r.y + r.h <= i * block + block
    && j * block <= r.x && r.x + r.w <= j * block + block
  }

  /** The second block's frame comes later, or its cell does, row by row. */
  predicate Later(a: Row, b: Row, block: nat)
    requires block > 0
  {
    || a.z < b.z
    || (a.z == b.z
        && (a.y / block < b.y / block || (a.y / block == b.y / block && a.x / block < b.x / block)))
  }

  lemma {:induction false} SameQuotient(y: nat, h: nat, block: nat)
    requires block > 0 && h > 0
    ensures y / block == (y + h - 1) / block
        <==> exists i: nat :: i * block <= y && y + h <= i * block + block
  {
    var q := y / block;
    AxisRanges.FloorMeans(y, block, q);
    AxisRanges.FloorMeans(y + h - 1, block, q);
    if i: nat :| i * block <= y && y + h <= i * block + block {
      AxisRanges.FloorMeans(y, block, i);
      AxisRanges.FloorMeans(y + h - 1, block, i);
    }
  }

  lemma {:induction false} OneCellMeans(r: Row, block: nat)
    requires block > 0 && r.h > 0 && r.w > 0
    ensures OneCell(r, block) <==> exists i: nat, j: nat :: InCell(r, block, i, j)
  {
    SameQuotient(r.y, r.h, block);
    SameQuotient(r.x, r.w, block);
    if OneCell(r, block) {
      var i: nat :| i * block <= r.y && r.y + r.h <= i * block + block;
      var j: nat :| j * block <= r.x && r.x + r.w <= j * block + block;
      assert InCell(r, block, i, j);
    }
  }

  lemma {:induction false} RisingIsLater(rows: seq<Row>, block: nat)
    requires block > 0
    ensures KeysRise(rows, block) <==> forall i: nat, j: nat | i < j < |rows| :: Later(rows[i], rows[j], block)
  {
    if KeysRise(rows, block) {
      forall i: nat, j: nat | i < j < |rows|
        ensures Later(rows[i], rows[j], block)
      {
        RisesTo(rows, block, i, j);
      }
    }
  }

  lemma {:induction false} RisesTo(rows: seq<Row>, block: nat, i: nat, j: nat)
    requires block > 0 && KeysRise(rows, block) && i < j < |rows|
    ensures Later(rows[i], rows[j], block)
    decreases j
  {
    assert KeyRises(rows[j - 1], rows[j], block);
    if i < j - 1 {
      RisesTo(rows, block, i, j - 1);
    }
  }

  /** A nonempty block of one cell, inside a frame of the volume, with compressed bytes. */
  ghost predicate Placed(r: Row, s: Shape, block: nat) {
    && r.z < s.depth && 0 < r.h && 0 < r.w && 0 < r.length && r.y + r.h <= s.height && r.x + r.w <= s.width
    && exists m: nat, n: nat :: InCell(r, block, m, n)
  }

  /** A good index has as many records as the manifest says; every block is a nonempty rectangle inside its plane
      and inside one cell of the grid; no two blocks of a frame share a cell, and they come in order; the
      compressed bytes fill the payload; and no more pixels are known than the blocks have. */
  lemma {:induction false} GoodIndexMeans(l: Lease)
    requires l.blockSize > 0
    ensures var rows, s := l.store.rows, l.store.shape;
      IndexOk(l) <==>
        && |rows| == l.count && Total(rows) == |l.store.payload| && l.intact && l.known <= Area(rows)
        && (forall i: nat | i < |rows| :: rows[i].offset == Total(rows[..i]))
        && (forall i: nat | i < |rows| :: Placed(rows[i], s, l.blockSize))
        && (forall i: nat, j: nat | i < j < |rows| :: Later(rows[i], rows[j], l.blockSize))
  {
    var rows, s := l.store.rows, l.store.shape;
    hide Chained, EndOf, Total, Area, Later, KeysRise, InCells, Placed;
    OffsetsAreSums(rows);
    RisingIsLater(rows, l.blockSize);
    CellsMean(rows, s, l.blockSize);
  }

  lemma {:induction false} CellsMean(rows: seq<Row>, s: Shape, block: nat)
    requires block > 0
    ensures InCells(rows, s, block) <==> forall i: nat | i < |rows| :: Placed(rows[i], s, block)
  {
    hide OneCell, InCell;
    forall r | r in rows && r.h > 0 && r.w > 0
      ensures OneCell(r, block) <==> exists m: nat, n: nat :: InCell(r, block, m, n)
    {
      OneCellMeans(r, block);
    }
    forall i: nat | i < |rows|
      ensures rows[i] in rows
    {
    }
  }

  // All leases

  predicate FirstsRise(leases: seq<Lease>) {
    forall i, j | 0 <= i < j < |leases| :: leases[i].first <= leases[j].first
  }

  lemma {:induction false} InsertRises(l: Lease, sorted: seq<Lease>)
    requires FirstsRise(sorted)
    ensures FirstsRise(Insert(l, sorted))
  {
    if sorted != [] && l.first > sorted[0].first {
      InsertRises(l, sorted[1..]);
      InsertKeeps(l, sorted[1..]);
      var rest := Insert(l, sorted[1..]);
      forall j | 0 <= j < |rest|
        ensures sorted[0].first <= rest[j].first
      {
        assert rest[j] in rest;
        if rest[j] != l {
          var k :| 0 <= k < |sorted[1..]| && sorted[1..][k] == rest[j];
          assert sorted[k + 1] == rest[j];
        }
      }
    }
  }

  lemma {:induction false} SortedRises(pieces: seq<Lease>)
    ensures FirstsRise(Sorted(pieces))
  {
    if pieces != [] {
      SortedRises(pieces[1..]);
      InsertRises(pieces[0], Sorted(pieces[1..]));
    }
  }

  lemma {:induction false} FirstOwner(leases: seq<Lease>, z: int)
    requires FirstsRise(leases) && Owners(leases, z) >= 1
    ensures leases != [] && leases[0].first <= z
  {
    SomeOwner(leases, z);
    var l :| l in leases && Reaches(l, z);
    var i :| 0 <= i < |leases| && leases[i] == l;
  }

  lemma {:induction false} OwnedIsCovered(leases: seq<Lease>, from: nat, native: Shape)
    requires FirstsRise(leases) && (forall l | l in leases :: l.store.shape.depth > 0) && from <= native.depth
    requires forall z: int :: Owners(leases, z) == if from <= z < native.depth then 1 else 0
    ensures Covers(leases, from, native)
  {
    if from < native.depth {
      assert Owners(leases, from) == 1;
      FirstOwner(leases, from);
    }
    if leases != [] {
      var l, rest := leases[0], leases[1..];
      var d := l.store.shape.depth;
      assert l in leases && Reaches(l, l.first) && Reaches(l, l.first + d - 1);
      assert Owners(leases, l.first) >= 1 && Owners(leases, l.first + d - 1) >= 1;
      forall z: int
        ensures Owners(rest, z) == if from + d <= z < native.depth then 1 else 0
      {
        assert Owners(leases, z) == (if Reaches(l, z) then 1 else 0) + Owners(rest, z);
      }
      RestRises(leases);
      OwnedIsCovered(rest, from + d, native);
    }
  }

  lemma {:induction false} RestRises(leases: seq<Lease>)
    requires FirstsRise(leases) && leases != []
    ensures FirstsRise(leases[1..])
  {
  }

  /** Every frame of the volume is in one of the leases, none is in two, and no lease reaches beyond it. */
  ghost predicate OneOwnerEach(pieces: seq<Lease>, native: Shape) {
    forall z: int :: Owners(pieces, z) == if 0 <= z < native.depth then 1 else 0
  }

  /** Sorted by their first frames, the leases follow each other without gap or overlap exactly when every frame
      has one owner. */
  lemma {:induction false} CoverMeansOneOwner(pieces: seq<Lease>, native: Shape)
    requires forall l | l in pieces :: l.store.shape.depth > 0
    ensures Covers(Sorted(pieces), 0, native) <==> OneOwnerEach(pieces, native)
  {
    hide Covers, Sorted, Owners;
    SortKeeps(pieces);
    SortedRises(pieces);
    forall z: int
      ensures Owners(Sorted(pieces), z) == Owners(pieces, z)
    {
      SortOwners(pieces, z);
    }
    if Covers(Sorted(pieces), 0, native) {
      forall z: int
        ensures Owners(pieces, z) == if 0 <= z < native.depth then 1 else 0
      {
        CoverOwners(Sorted(pieces), 0, native, z);
      }
    }
    if OneOwnerEach(pieces, native) {
      OwnedIsCovered(Sorted(pieces), 0, native);
    }
  }

  /** The demands on metadata: a volume of 31-bit dimensions, at least one lease, every lease over the whole plane
      with a block size of 16 bits and sensible counts, all of one block size and one quantization, every frame
      in exactly one of them, and payloads that 64 bits can count. */
  lemma {:induction false} PreflightMeans(pieces: seq<Lease>, native: Shape)
    ensures Preflight(pieces, native) <==>
      && 0 < native.depth < 0x8000_0000 && 0 < native.height < 0x8000_0000 && 0 < native.width < 0x8000_0000
      && pieces != []
      && (forall l | l in pieces ::
            && l.store.shape.height == native.height && l.store.shape.width == native.width && 0 < l.store.shape.depth
            && 0 < l.blockSize < 0x1_0000 && |l.store.rows| == l.count && (l.count == 0 <==> l.known == 0)
            && l.known <= l.store.shape.depth * (l.store.shape.height * l.store.shape.width))
      && (forall l, k | l in pieces && k in pieces :: l.blockSize == k.blockSize && l.quantization == k.quantization)
      && OneOwnerEach(pieces, native)
      && |PayloadOf(Sorted(pieces))| < 0x1_0000_0000_0000_0000
  {
    hide Covers, Sorted, OneOwnerEach;
    if forall l | l in pieces :: l.store.shape.depth > 0 {
      CoverMeansOneOwner(pieces, native);
    }
    if pieces != [] {
      assert pieces[0] in pieces;
    }
  }
}
