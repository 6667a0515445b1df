/** Cutting a score plane into tight crops, one per nonempty cell of a fixed grid. */
module ScoreBlocks {
  datatype Box = Box(y0: int, y1: int, x0: int, x1: int)

  /** Where a plane is nonzero. */
  type Plane = (int, int) -> bool

  predicate Inside(b: Box, y: int, x: int) {
    b.y0 <= y < b.y1 && b.x0 <= x < b.x1
  }

  ghost predicate Any(p: Plane, r: Box) {
    exists y, x :: Inside(r, y, x) && p(y, x)
  }

  predicate RowHit(p: Plane, r: Box, y: int) {
    exists x :: r.x0 <= x < r.x1 && p(y, x)
  }

  predicate ColumnHit(p: Plane, r: Box, x: int) {
    exists y :: r.y0 <= y < r.y1 && p(y, x)
  }

  /** `b` is the tight box of the nonzero pixels of region `r`. */
  ghost predicate TightIn(p: Plane, r: Box, b: Box) {
    && r.y0 <= b.y0 < b.y1 <= r.y1 && r.x0 <= b.x0 < b.x1 <= r.x1
    && (forall y, x | Inside(r, y, x) && p(y, x) :: Inside(b, y, x))
    && RowHit(p, r, b.y0) && RowHit(p, r, b.y1 - 1) && ColumnHit(p, r, b.x0) && ColumnHit(p, r, b.x1 - 1)
  }

  lemma {:induction false} TightUnique(p: Plane, r: Box, a: Box, b: Box)
    requires TightIn(p, r, a) && TightIn(p, r, b)
    ensures a == b
  {
    TightWithin(p, r, a, b);
    TightWithin(p, r, b, a);
  }

  lemma {:induction false} RowIsIn(p: Plane, r: Box, b: Box, y: int)
    requires TightIn(p, r, b) && r.y0 <= y < r.y1 && RowHit(p, r, y)
    ensures b.y0 <= y < b.y1
  {
    var x :| r.x0 <= x < r.x1 && p(y, x);
    assert Inside(b, y, x);
  }

  lemma {:induction false} ColumnIsIn(p: Plane, r: Box, b: Box, x: int)
    requires TightIn(p, r, b) && r.x0 <= x < r.x1 && ColumnHit(p, r, x)
    ensures b.x0 <= x < b.x1
  {
    var y :| r.y0 <= y < r.y1 && p(y, x);
    assert Inside(b, y, x);
  }

  lemma {:induction false} TightWithin(p: Plane, r: Box, a: Box, b: Box)
    requires TightIn(p, r, b)
    requires r.y0 <= a.y0 < a.y1 <= r.y1 && r.x0 <= a.x0 < a.x1 <= r.x1
    requires RowHit(p, r, a.y0) && RowHit(p, r, a.y1 - 1) && ColumnHit(p, r, a.x0) && ColumnHit(p, r, a.x1 - 1)
    ensures b.y0 <= a.y0 && a.y1 <= b.y1 && b.x0 <= a.x0 && a.x1 <= b.x1
  {
    hide TightIn;
    RowIsIn(p, r, b, a.y0);
    RowIsIn(p, r, b, a.y1 - 1);
    ColumnIsIn(p, r, b, a.x0);
    ColumnIsIn(p, r, b, a.x1 - 1);
  }

  // The grid

  function Min(a: int, b: int): int {
    if a <= b then a else b
  }

  function Max(a: int, b: int): int {
    if a >= b then a else b
  }

  datatype Grid = Grid(h: nat, w: nat, block: nat)

  predicate ValidGrid(g: Grid) {
    1 <= g.block <= 65535
  }

  datatype Key = Key(row: int, column: int)

  predicate Precedes(a: Key, b: Key) {
    a.row < b.row || (a.row == b.row && a.column < b.column)
  }

  function KeyOf(g: Grid, y: int, x: int): Key
    requires ValidGrid(g)
  {
    Key(y / g.block, x / g.block)
  }

  function Cell(g: Grid, k: Key): Box {
    Box(k.row * g.block, Min(k.row * g.block + g.block, g.h), k.column * g.block,
        Min(k.column * g.block + g.block, g.w))
  }

  /** A pixel of the plane lies in the cell of its key and in no other. */
  lemma {:induction false} InItsCell(g: Grid, k: Key, y: int, x: int)
    requires ValidGrid(g) && 0 <= y < g.h && 0 <= x < g.w
    ensures Inside(Cell(g, k), y, x) <==> k == KeyOf(g, y, x)
  {
    InItsSpan(g.block, k.row, y);
    InItsSpan(g.block, k.column, x);
  }

  lemma {:induction false} ProductIsNatural(a: nat, b: nat)
    ensures a * b >= 0
  {
  }

  lemma {:induction false} NextMultiple(a: int, b: int, block: nat)
    requires a < b
    ensures a * block + block <= b * block
  {
    ProductIsNatural(b - a - 1, block);
    assert b * block == a * block + block + (b - a - 1) * block;
  }

  lemma {:induction false} InItsSpan(block: nat, k: int, i: int)
    requires block > 0
    ensures k * block <= i < k * block + block <==> k == i / block
  {
    var q := i / block;
    assert i == q * block + i % block;
    if k < q {
      NextMultiple(k, q, block);
    } else if k > q {
      NextMultiple(q, k, block);
    }
  }

  ghost predicate KeysRise(g: Grid, out: seq<Box>)
    requires ValidGrid(g)
  {
    forall i, j | 0 <= i < j < |out| :: Precedes(KeyOf(g, out[i].y0, out[i].x0), KeyOf(g, out[j].y0, out[j].x0))
  }

  /** The crops of the nonempty cells before `k`, in grid order. */
  ghost predicate CutUpTo(p: Plane, g: Grid, out: seq<Box>, k: Key)
    requires ValidGrid(g)
  {
    && (forall b | b in out :: TightIn(p, Cell(g, KeyOf(g, b.y0, b.x0)), b) && Precedes(KeyOf(g, b.y0, b.x0), k))
    && (forall b | b in out :: 0 <= b.y0 < b.y1 <= g.h && 0 <= b.x0 < b.x1 <= g.w)
    && KeysRise(g, out)
    && (forall y, x | 0 <= y < g.h && 0 <= x < g.w && p(y, x) && Precedes(KeyOf(g, y, x), k) ::
          exists b :: b in out && Inside(b, y, x))
  }

  /** The canonical cut of a plane. */
  ghost predicate IsCut(p: Plane, g: Grid, out: seq<Box>)
    requires ValidGrid(g)
  {
    CutUpTo(p, g, out, Key(g.h, 0))
  }

  // What a cut is good for

  /** The crops tile the nonzero pixels: each crop lies inside one cell, crops are disjoint, and a
      pixel is nonzero only inside exactly one of them. */
  lemma {:induction false} CutIsLossless(p: Plane, g: Grid, out: seq<Box>, y: int, x: int)
    requires ValidGrid(g) && IsCut(p, g, out) && 0 <= y < g.h && 0 <= x < g.w
    ensures p(y, x) ==> exists i :: 0 <= i < |out| && Inside(out[i], y, x)
    ensures forall i, j | 0 <= i < |out| && 0 <= j < |out| && Inside(out[i], y, x) && Inside(out[j], y, x) :: i == j
    ensures forall i | 0 <= i < |out| && Inside(out[i], y, x) :: KeyOf(g, y, x) == KeyOf(g, out[i].y0, out[i].x0)
  {
    if p(y, x) {
      RowsAreFew(g, y);
      var b :| b in out && Inside(b, y, x);
    }
    forall i | 0 <= i < |out| && Inside(out[i], y, x)
      ensures KeyOf(g, y, x) == KeyOf(g, out[i].y0, out[i].x0)
    {
      assert out[i] in out;
      InItsCell(g, KeyOf(g, out[i].y0, out[i].x0), y, x);
    }
  }

  lemma {:induction false} RowsAreFew(g: Grid, y: int)
    requires ValidGrid(g) && 0 <= y < g.h
    ensures 0 <= y / g.block < g.h
  {
    var q := y / g.block;
    InItsSpan(g.block, q, y);
    if q < 0 {
      NextMultiple(q, 0, g.block);
    } else {
      ProductIsNatural(q, g.block - 1);
      assert q * g.block == q + q * (g.block - 1);
    }
  }

  /** A plane has one cut. */
  lemma {:induction false} CutUnique(p: Plane, g: Grid, a: seq<Box>, b: seq<Box>)
    requires ValidGrid(g) && IsCut(p, g, a) && IsCut(p, g, b)
    ensures a == b
  {
    CutWithin(p, g, a, b);
    CutWithin(p, g, b, a);
    SameSorted(g, a, b);
  }

  lemma {:induction false} CutWithin(p: Plane, g: Grid, a: seq<Box>, b: seq<Box>)
    requires ValidGrid(g) && IsCut(p, g, a) && IsCut(p, g, b)
    ensures forall c | c in a :: c in b
  {
    hide IsCut;
    forall c | c in a
      ensures c in b
    {
      CropIsCut(p, g, a, b, c);
    }
  }

  /** A crop of one cut is a crop of the other: the tight box of its cell. */
  lemma {:induction false} CropIsCut(p: Plane, g: Grid, a: seq<Box>, b: seq<Box>, c: Box)
    requires ValidGrid(g) && IsCut(p, g, a) && IsCut(p, g, b) && c in a
    ensures c in b
  {
    hide IsCut, TightIn, Cell, KeyOf;
    var x := PixelOfTop(p, g, a, c);
    var d := CropAround(p, g, b, c.y0, x);
    TightUnique(p, Cell(g, KeyOf(g, c.y0, c.x0)), c, d);
  }

  /** A nonzero pixel in the top row of a crop. */
  lemma {:induction false} PixelOfTop(p: Plane, g: Grid, a: seq<Box>, c: Box) returns (x: int)
    requires ValidGrid(g) && IsCut(p, g, a) && c in a
    ensures 0 <= c.y0 < g.h && 0 <= x < g.w && p(c.y0, x) && KeyOf(g, c.y0, x) == KeyOf(g, c.y0, c.x0)
    ensures TightIn(p, Cell(g, KeyOf(g, c.y0, c.x0)), c)
  {
    var k := KeyOf(g, c.y0, c.x0);
    InItsCell(g, k, c.y0, c.x0);
    hide KeysRise, KeyOf;
    var cell := Cell(g, k);
    x :| cell.x0 <= x < cell.x1 && p(c.y0, x);
    assert Inside(cell, c.y0, x) && Inside(c, c.y0, x);
    InItsCell(g, k, c.y0, x);
  }

  /** The crop that holds a nonzero pixel is the tight box of the pixel's cell. */
  lemma {:induction false} CropAround(p: Plane, g: Grid, b: seq<Box>, y: int, x: int) returns (d: Box)
    requires ValidGrid(g) && IsCut(p, g, b) && 0 <= y < g.h && 0 <= x < g.w && p(y, x)
    ensures d in b && Inside(d, y, x) && TightIn(p, Cell(g, KeyOf(g, y, x)), d)
  {
    RowsAreFew(g, y);
    hide KeysRise;
    d :| d in b && Inside(d, y, x);
    InItsCell(g, KeyOf(g, d.y0, d.x0), y, x);
  }

  /** Strictly sorted sequences with the same members are equal. */
  lemma {:induction false} SameSorted(g: Grid, a: seq<Box>, b: seq<Box>)
    requires ValidGrid(g) && KeysRise(g, a) && KeysRise(g, b)
    requires forall c :: c in a <==> c in b
    ensures a == b
  {
    if a == [] || b == [] {
      if a != [] {
        HasMember(a);
      }
      if b != [] {
        HasMember(b);
      }
    } else {
      assert a[0] in b && b[0] in a;
      var i :| 0 <= i < |b| && b[i] == a[0];
      var j :| 0 <= j < |a| && a[j] == b[0];
      assert i == 0;
      forall c
        ensures c in a[1..] <==> c in b[1..]
      {
        OnlyOnce(g, a, c);
        OnlyOnce(g, b, c);
      }
      SameSorted(g, a[1..], b[1..]);
      assert a == [a[0]] + a[1..] && b == [b[0]] + b[1..];
    }
  }

  lemma {:induction false} HasMember(a: seq<Box>)
    requires a != []
    ensures exists c :: c in a
  {
    assert a[0] in a;
  }

  lemma {:induction false} OnlyOnce(g: Grid, a: seq<Box>, c: Box)
    requires ValidGrid(g) && KeysRise(g, a) && a != []
    ensures c in a[1..] <==> c in a && c != a[0]
  {
    if c in a[1..] {
      var i :| 0 <= i < |a[1..]| && a[1..][i] == c;
      assert a[i + 1] == c;
    }
  }
}
