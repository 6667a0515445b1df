/** Cutting the crops that a reader yields, on the same grid as a full-plane scan. */
module ScoreCropper {
  import opened Options
  import opened ScoreBlocks
  import opened ScoreCutter

  const BAND_BYTES := 8 * 1024 * 1024

  /** A crop as a reader hands it over: a box and where its scores are nonzero. */
  datatype Piece = Piece(box: Box, score: Plane)

  predicate ValidPiece(g: Grid, c: Piece) {
    0 <= c.box.y0 < c.box.y1 <= g.h && 0 <= c.box.x0 < c.box.x1 <= g.w
  }

  /** A crop holds nothing outside its box. */
  ghost predicate Within(c: Piece) {
    forall y, x | c.score(y, x) :: Inside(c.box, y, x)
  }

  function Either(p: Plane, q: Plane): Plane {
    (y, x) => p(y, x) || q(y, x)
  }

  function Nowhere(): Plane {
    (y, x) => false
  }

  /** What the crops hold together. */
  function Union(pieces: seq<Piece>): Plane {
    if pieces == [] then Nowhere() else Either(Union(pieces[..|pieces| - 1]), pieces[|pieces| - 1].score)
  }

  /** Every nonempty cell of `q` comes after every nonempty cell of `p`. */
  ghost predicate After(g: Grid, p: Plane, q: Plane)
    requires ValidGrid(g)
  {
    forall y, x, v, u |
      0 <= y < g.h && 0 <= x < g.w && p(y, x) && 0 <= v < g.h && 0 <= u < g.w && q(v, u) ::
      Precedes(KeyOf(g, y, x), KeyOf(g, v, u))
  }

  /** Each crop's nonempty cells come after those of all crops before it. */
  ghost predicate Ordered(g: Grid, pieces: seq<Piece>)
    requires ValidGrid(g)
  {
    pieces != [] ==>
      && Ordered(g, pieces[..|pieces| - 1])
      && After(g, Union(pieces[..|pieces| - 1]), pieces[|pieces| - 1].score)
  }

  // Cutting one crop

  function Clip(r: Box, to: Box): Box {
    Box(Max(r.y0, to.y0), Min(r.y1, to.y1), Max(r.x0, to.x0), Min(r.x1, to.x1))
  }

  /** In the part of a cell under the crop, the crop looks as it does in the whole cell. */
  lemma {:induction false} ClippedCell(g: Grid, c: Piece, k: Key)
    requires Within(c)
    requires ValidGrid(g) && ValidPiece(g, c)
    ensures var cell := Cell(g, k);
      && (Any(c.score, Clip(cell, c.box)) <==> Any(c.score, cell))
      && forall b :: TightIn(c.score, Clip(cell, c.box), b) ==> TightIn(c.score, cell, b)
  {
    var cell := Cell(g, k);
    var r := Clip(cell, c.box);
    if y, x :| Inside(r, y, x) && c.score(y, x) {
      assert Inside(cell, y, x) && c.score(y, x);
    }
    if y, x :| Inside(cell, y, x) && c.score(y, x) {
      assert Inside(r, y, x);
    }
    forall b | TightIn(c.score, r, b)
      ensures TightIn(c.score, cell, b)
    {
      ClippedTight(c, cell, b);
    }
  }

  lemma {:induction false} ClippedTight(c: Piece, cell: Box, b: Box)
    requires Within(c) && TightIn(c.score, Clip(cell, c.box), b)
    ensures TightIn(c.score, cell, b)
  {
    var r := Clip(cell, c.box);
    forall y, x | Inside(cell, y, x) && c.score(y, x)
      ensures Inside(b, y, x)
    {
      assert Inside(r, y, x);
    }
  }

  lemma {:induction false} KeyAtLeast(block: nat, low: int, i: int)
    requires block > 0 && low <= i
    ensures low / block <= i / block
  {
    InItsSpan(block, low / block, low);
    InItsSpan(block, i / block, i);
    if i / block < low / block {
      NextMultiple(i / block, low / block, block);
    }
  }

  lemma {:induction false} RowBegins(g: Grid, c: Piece, mine: seq<Box>, row: int)
    requires Within(c)
    requires ValidGrid(g) && CutUpTo(c.score, g, mine, Key(row, 0))
    requires ValidPiece(g, c)
    ensures CutUpTo(c.score, g, mine, Key(row, c.box.x0 / g.block))
  {
    ColumnsAreFew(g, c.box.x0);
    forall y, x | 0 <= y < g.h && 0 <= x < g.w && c.score(y, x)
        && Precedes(KeyOf(g, y, x), Key(row, c.box.x0 / g.block))
      ensures Precedes(KeyOf(g, y, x), Key(row, 0))
    {
      KeyAtLeast(g.block, c.box.x0, x);
    }
    CutSkip(c.score, g, mine, Key(row, 0), Key(row, c.box.x0 / g.block));
  }

  lemma {:induction false} RowEnds(g: Grid, c: Piece, mine: seq<Box>, row: int, column: int)
    requires Within(c)
    requires ValidGrid(g) && CutUpTo(c.score, g, mine, Key(row, column)) && column * g.block >= c.box.x1
    ensures CutUpTo(c.score, g, mine, Key(row + 1, 0))
  {
    hide CutUpTo, KeyOf, Cell;
    forall y, x | 0 <= y < g.h && 0 <= x < g.w && c.score(y, x) && Precedes(KeyOf(g, y, x), Key(row + 1, 0))
      ensures Precedes(KeyOf(g, y, x), Key(row, column))
    {
      assert Inside(c.box, y, x);
      KeyInRow(g, y, x, row, column);
    }
    CutSkip(c.score, g, mine, Key(row, column), Key(row + 1, 0));
  }

  lemma {:induction false} KeyInRow(g: Grid, y: int, x: int, row: int, column: int)
    requires ValidGrid(g) && x < column * g.block && Precedes(KeyOf(g, y, x), Key(row + 1, 0)) && x >= 0
    ensures Precedes(KeyOf(g, y, x), Key(row, column))
  {
    KeyBelow(g.block, column, x);
    KeyNotNegative(g.block, x);
  }

  lemma {:induction false} KeyNotNegative(block: nat, x: nat)
    requires block > 0
    ensures x / block >= 0
  {
  }

  lemma {:induction false} PieceBegins(g: Grid, c: Piece)
    requires Within(c)
    requires ValidGrid(g) && ValidPiece(g, c)
    ensures CutUpTo(c.score, g, [], Key(c.box.y0 / g.block, 0))
    ensures c.box.y0 / g.block >= 0 && c.box.x0 / g.block >= 0
  {
    RowsAreFew(g, c.box.y0);
    ColumnsAreFew(g, c.box.x0);
    forall y, x | 0 <= y < g.h && 0 <= x < g.w && c.score(y, x)
      ensures !Precedes(KeyOf(g, y, x), Key(c.box.y0 / g.block, 0))
    {
      KeyAtLeast(g.block, c.box.y0, y);
      ColumnsAreFew(g, x);
    }
  }

  lemma {:induction false} PieceEnds(g: Grid, c: Piece, mine: seq<Box>, row: int)
    requires Within(c)
    requires ValidGrid(g) && CutUpTo(c.score, g, mine, Key(row, 0)) && row * g.block >= c.box.y1
    ensures IsCut(c.score, g, mine)
  {
    forall b | b in mine
      ensures Precedes(KeyOf(g, b.y0, b.x0), Key(g.h, 0))
    {
      RowsAreFew(g, b.y0);
    }
    forall y, x | 0 <= y < g.h && 0 <= x < g.w && c.score(y, x)
      ensures Precedes(KeyOf(g, y, x), Key(row, 0))
    {
      KeyBelow(g.block, row, y);
    }
  }

  // One crop after the others

  /** A nonempty cell has a crop, and a crop's cell is nonempty. */
  lemma {:induction false} CropOfPixel(p: Plane, g: Grid, out: seq<Box>, y: int, x: int) returns (b: Box)
    requires ValidGrid(g) && IsCut(p, g, out) && 0 <= y < g.h && 0 <= x < g.w && p(y, x)
    ensures b in out && Inside(b, y, x) && KeyOf(g, b.y0, b.x0) == KeyOf(g, y, x)
  {
    RowsAreFew(g, y);
    b :| b in out && Inside(b, y, x);
    InItsCell(g, KeyOf(g, b.y0, b.x0), y, x);
  }

  lemma {:induction false} PixelOfCrop(p: Plane, g: Grid, k: Key, b: Box) returns (y: int, x: int)
    requires ValidGrid(g) && TightIn(p, Cell(g, k), b) && k.row >= 0 && k.column >= 0
    ensures 0 <= y < g.h && 0 <= x < g.w && p(y, x) && KeyOf(g, y, x) == k
  {
    y := b.y0;
    x :| Cell(g, k).x0 <= x < Cell(g, k).x1 && p(y, x);
    CellKey(g, k, y, x);
  }

  /** A cut followed by a later cut is the cut of both. */
  lemma {:induction false} CutsJoin(p: Plane, q: Plane, g: Grid, a: seq<Box>, b: seq<Box>)
    requires ValidGrid(g) && IsCut(p, g, a) && IsCut(q, g, b) && After(g, p, q)
    ensures IsCut(Either(p, q), g, a + b)
  {
    var all := a + b;
    forall i, j | 0 <= i < j < |all|
      ensures Precedes(KeyOf(g, all[i].y0, all[i].x0), KeyOf(g, all[j].y0, all[j].x0))
    {
      if i < |a| <= j {
        CropsApart(p, q, g, a, b, a[i], b[j - |a|]);
      }
    }
    forall c | c in all
      ensures TightIn(Either(p, q), Cell(g, KeyOf(g, c.y0, c.x0)), c)
      ensures 0 <= c.y0 < c.y1 <= g.h && 0 <= c.x0 < c.x1 <= g.w
      ensures Precedes(KeyOf(g, c.y0, c.x0), Key(g.h, 0))
    {
      if c in a {
        TightAlone(p, q, g, a, c);
      } else {
        TightLater(p, q, g, b, c);
      }
    }
    forall y, x | 0 <= y < g.h && 0 <= x < g.w && Either(p, q)(y, x)
      ensures exists c :: c in all && Inside(c, y, x)
    {
      var c := if p(y, x) then CropAt(p, g, a, y, x) else CropAt(q, g, b, y, x);
      assert c in all;
    }
  }

  ghost function CropAt(p: Plane, g: Grid, out: seq<Box>, y: int, x: int): (b: Box)
    requires ValidGrid(g) && IsCut(p, g, out) && 0 <= y < g.h && 0 <= x < g.w && p(y, x)
    ensures b in out && Inside(b, y, x)
  {
    RowsAreFew(g, y);
    var b :| b in out && Inside(b, y, x);
    b
  }

  lemma {:induction false} CropsApart(p: Plane, q: Plane, g: Grid, a: seq<Box>, b: seq<Box>, c: Box, d: Box)
    requires ValidGrid(g) && IsCut(p, g, a) && IsCut(q, g, b) && After(g, p, q) && c in a && d in b
    ensures Precedes(KeyOf(g, c.y0, c.x0), KeyOf(g, d.y0, d.x0))
  {
    RowsAreFew(g, c.y0);
    ColumnsAreFew(g, c.x0);
    RowsAreFew(g, d.y0);
    ColumnsAreFew(g, d.x0);
    var y, x := PixelOfCrop(p, g, KeyOf(g, c.y0, c.x0), c);
    var v, u := PixelOfCrop(q, g, KeyOf(g, d.y0, d.x0), d);
  }

  lemma {:induction false} TightAlone(p: Plane, q: Plane, g: Grid, a: seq<Box>, c: Box)
    requires ValidGrid(g) && IsCut(p, g, a) && After(g, p, q) && c in a
    ensures TightIn(Either(p, q), Cell(g, KeyOf(g, c.y0, c.x0)), c)
  {
    var k := KeyOf(g, c.y0, c.x0);
    RowsAreFew(g, c.y0);
    ColumnsAreFew(g, c.x0);
    var v, u := PixelOfCrop(p, g, k, c);
    forall y, x | Inside(Cell(g, k), y, x)
      ensures !q(y, x)
    {
      CellKey(g, k, y, x);
    }
    TightSame(p, Either(p, q), Cell(g, k), c);
  }

  lemma {:induction false} TightLater(p: Plane, q: Plane, g: Grid, b: seq<Box>, c: Box)
    requires ValidGrid(g) && IsCut(q, g, b) && After(g, p, q) && c in b
    ensures TightIn(Either(p, q), Cell(g, KeyOf(g, c.y0, c.x0)), c)
  {
    var k := KeyOf(g, c.y0, c.x0);
    RowsAreFew(g, c.y0);
    ColumnsAreFew(g, c.x0);
    var v, u := PixelOfCrop(q, g, k, c);
    forall y, x | Inside(Cell(g, k), y, x)
      ensures !p(y, x)
    {
      CellKey(g, k, y, x);
    }
    TightSame(q, Either(p, q), Cell(g, k), c);
  }

  lemma {:induction false} TightSame(p: Plane, q: Plane, r: Box, b: Box)
    requires TightIn(p, r, b) && forall y, x | Inside(r, y, x) :: p(y, x) <==> q(y, x)
    ensures TightIn(q, r, b)
  {
    RowSame(p, q, r, b.y0);
    RowSame(p, q, r, b.y1 - 1);
    ColumnSame(p, q, r, b.x0);
    ColumnSame(p, q, r, b.x1 - 1);
  }

  lemma {:induction false} RowSame(p: Plane, q: Plane, r: Box, y: int)
    requires r.y0 <= y < r.y1 && RowHit(p, r, y) && forall y, x | Inside(r, y, x) :: p(y, x) <==> q(y, x)
    ensures RowHit(q, r, y)
  {
    var x :| r.x0 <= x < r.x1 && p(y, x);
    assert Inside(r, y, x);
  }

  lemma {:induction false} ColumnSame(p: Plane, q: Plane, r: Box, x: int)
    requires r.x0 <= x < r.x1 && ColumnHit(p, r, x) && forall y, x | Inside(r, y, x) :: p(y, x) <==> q(y, x)
    ensures ColumnHit(q, r, x)
  {
    var y :| r.y0 <= y < r.y1 && p(y, x);
    assert Inside(r, y, x);
  }

  // The scan

  /** The cell of the last crop, or one before every cell. */
  function LastKey(g: Grid, out: seq<Box>): Key
    requires ValidGrid(g)
  {
    if out == [] then Key(-1, -1) else KeyOf(g, out[|out| - 1].y0, out[|out| - 1].x0)
  }

  ghost predicate Follow(g: Grid, previous: Key, mine: seq<Box>)
    requires ValidGrid(g)
  {
    forall m | m in mine :: Precedes(previous, KeyOf(g, m.y0, m.x0))
  }

  lemma {:induction false} MineComesLast(g: Grid, p: Plane, before: seq<Box>, mine: seq<Box>, k: Key)
    requires ValidGrid(g) && CutUpTo(p, g, mine, k) && mine != []
    ensures Precedes(LastKey(g, before + mine), k)
  {
    assert mine[|mine| - 1] in mine && (before + mine)[|before + mine| - 1] == mine[|mine| - 1];
  }

  lemma {:induction false} LastPixel(p: Plane, g: Grid, out: seq<Box>) returns (y: int, x: int)
    requires ValidGrid(g) && IsCut(p, g, out) && out != []
    ensures 0 <= y < g.h && 0 <= x < g.w && p(y, x) && KeyOf(g, y, x) == LastKey(g, out)
  {
    var last := out[|out| - 1];
    assert last in out;
    RowsAreFew(g, last.y0);
    ColumnsAreFew(g, last.x0);
    y, x := PixelOfCrop(p, g, KeyOf(g, last.y0, last.x0), last);
  }

  /** A cell that does not come after the last crop's shows that the crops are out of order. */
  lemma {:induction false} RefusedIsDisordered(done: Plane, g: Grid, c: Piece, before: seq<Box>, mine: seq<Box>,
        k: Key, box: Box)
    requires ValidGrid(g) && IsCut(done, g, before) && CutUpTo(c.score, g, mine, k)
    requires k.row >= 0 && k.column >= 0 && TightIn(c.score, Cell(g, k), box)
    requires !Precedes(LastKey(g, before + mine), k)
    ensures !After(g, done, c.score)
  {
    hide CutUpTo, IsCut, TightIn;
    if mine != [] {
      MineComesLast(g, c.score, before, mine, k);
    } else {
      assert before + mine == before;
      var y, x := LastPixel(done, g, before);
      var v, u := PixelOfCrop(c.score, g, k, box);
    }
  }

  lemma {:induction false} LastIsGreatest(p: Plane, g: Grid, out: seq<Box>, y: int, x: int)
    requires ValidGrid(g) && IsCut(p, g, out) && 0 <= y < g.h && 0 <= x < g.w && p(y, x)
    ensures KeyOf(g, y, x) == LastKey(g, out) || Precedes(KeyOf(g, y, x), LastKey(g, out))
  {
    var b := CropOfPixel(p, g, out, y, x);
    var i :| 0 <= i < |out| && out[i] == b;
  }

  lemma {:induction false} AcceptedIsOrdered(done: Plane, g: Grid, c: Piece, before: seq<Box>, mine: seq<Box>)
    requires ValidGrid(g) && IsCut(done, g, before) && IsCut(c.score, g, mine) && Follow(g, LastKey(g, before), mine)
    ensures After(g, done, c.score)
  {
    hide CutUpTo, IsCut;
    forall y, x, v, u |
      0 <= y < g.h && 0 <= x < g.w && done(y, x) && 0 <= v < g.h && 0 <= u < g.w && c.score(v, u)
      ensures Precedes(KeyOf(g, y, x), KeyOf(g, v, u))
    {
      LastIsGreatest(done, g, before, y, x);
      var m := CropOfPixel(c.score, g, mine, v, u);
    }
  }

  /** The tile of one cell: from one scan of the whole band when that is small, on its own otherwise. */
  method CropTile(g: Grid, c: Piece, k: Key, band: Box, columnAny: Option<seq<bool>>) returns (box: Option<Box>)
    requires ValidGrid(g) && ValidPiece(g, c) && Within(c)
    requires band.y0 == Clip(Cell(g, k), c.box).y0 <= band.y1 == Clip(Cell(g, k), c.box).y1
    requires band.x0 == c.box.x0 && band.x1 == c.box.x1
    requires Cell(g, k).x0 < c.box.x1 && c.box.x0 < Cell(g, k).x1
    requires columnAny.Some? ==> columnAny.value == ColumnFlags(c.score, band)
    ensures box.Some? <==> Any(c.score, Cell(g, k))
    ensures box.Some? ==> TightIn(c.score, Cell(g, k), box.value)
  {
    ClippedCell(g, c, k);
    var r := Clip(Cell(g, k), c.box);
    match columnAny
    case Some(flags) => box := ScanTileInBand(c.score, band, flags, r);
    case None => box := ScanTile(c.score, r);
  }

  lemma {:induction false} CellReaches(g: Grid, c: Piece, k: Key)
    requires ValidGrid(g) && ValidPiece(g, c)
    requires k.row >= c.box.y0 / g.block && k.row * g.block < c.box.y1
    requires k.column >= c.box.x0 / g.block && k.column * g.block < c.box.x1
    ensures Cell(g, k).x0 < c.box.x1 && c.box.x0 < Cell(g, k).x1
    ensures Cell(g, k).y0 < c.box.y1 && c.box.y0 < Cell(g, k).y1
  {
    Starts(g.block, c.box.y0, k.row);
    Starts(g.block, c.box.x0, k.column);
  }

  lemma {:induction false} Starts(block: nat, low: int, k: int)
    requires block > 0 && k >= low / block
    ensures low < k * block + block
  {
    InItsSpan(block, low / block, low);
    if low / block < k {
      NextMultiple(low / block, k, block);
    }
  }

  /** Cuts one crop after the crops already cut; refused when one of its nonempty cells does not
      come after them all. */
  method CropOne(g: Grid, c: Piece, before: seq<Box>, ghost done: Plane) returns (out: Option<seq<Box>>)
    requires ValidGrid(g) && ValidPiece(g, c) && Within(c) && IsCut(done, g, before)
    ensures out.Some? <==> After(g, done, c.score)
    ensures out.Some? ==> IsCut(Either(done, c.score), g, out.value)
  {
    hide CutUpTo, TightIn, Any, IsCut, After, Within, Cell;
    var mine: seq<Box> := [];
    var previous := LastKey(g, before);
    PieceBegins(g, c);
    var row: int := c.box.y0 / g.block;
    while row * g.block < c.box.y1
      invariant row >= c.box.y0 / g.block >= 0
      invariant CutUpTo(c.score, g, mine, Key(row, 0)) && Follow(g, LastKey(g, before), mine)
      invariant previous == LastKey(g, before + mine)
      decreases c.box.y1 - row * g.block
    {
      var a, b := Max(row * g.block, c.box.y0), Min(row * g.block + g.block, c.box.y1);
      var band := Box(a, b, c.box.x0, c.box.x1);
      Starts(g.block, c.box.y0, row);
      var columnAny := if (b - a) * (c.box.x1 - c.box.x0) <= BAND_BYTES then Some(ColumnFlags(c.score, band)) else None;
      RowBegins(g, c, mine, row);
      var column: int := c.box.x0 / g.block;
      while column * g.block < c.box.x1
        invariant column >= c.box.x0 / g.block >= 0
        invariant CutUpTo(c.score, g, mine, Key(row, column)) && Follow(g, LastKey(g, before), mine)
        invariant previous == LastKey(g, before + mine)
        decreases c.box.x1 - column * g.block
      {
        var k := Key(row, column);
        CellReaches(g, c, k);
        BandOfCell(g, c, k);
        var box := CropTile(g, c, k, band, columnAny);
        CutNext(c.score, g, mine, k, box);
        if box.Some? {
          if !Precedes(previous, k) {
            RefusedIsDisordered(done, g, c, before, mine, k, box.value);
            return None;
          }
          KeyOfTight(g, c.score, k, box.value);
          FollowMore(g, before, mine, box.value);
          assert before + (mine + [box.value]) == (before + mine) + [box.value];
          mine := mine + [box.value];
          previous := k;
        }
        NextMultiple(column, column + 1, g.block);
        column := column + 1;
      }
      RowEnds(g, c, mine, row, column);
      NextMultiple(row, row + 1, g.block);
      row := row + 1;
    }
    PieceEnds(g, c, mine, row);
    AcceptedIsOrdered(done, g, c, before, mine);
    CutsJoin(done, c.score, g, before, mine);
    out := Some(before + mine);
  }

  lemma {:induction false} BandOfCell(g: Grid, c: Piece, k: Key)
    requires ValidGrid(g) && ValidPiece(g, c)
    ensures Clip(Cell(g, k), c.box).y0 == Max(k.row * g.block, c.box.y0)
    ensures Clip(Cell(g, k), c.box).y1 == Min(k.row * g.block + g.block, c.box.y1)
  {
  }

  lemma {:induction false} KeyOfTight(g: Grid, p: Plane, k: Key, b: Box)
    requires ValidGrid(g) && TightIn(p, Cell(g, k), b) && k.row >= 0 && k.column >= 0
    ensures KeyOf(g, b.y0, b.x0) == k
  {
    CellKey(g, k, b.y0, b.x0);
  }

  lemma {:induction false} FollowMore(g: Grid, before: seq<Box>, mine: seq<Box>, b: Box)
    requires ValidGrid(g) && Follow(g, LastKey(g, before), mine)
    requires Precedes(LastKey(g, before + mine), KeyOf(g, b.y0, b.x0))
    ensures Follow(g, LastKey(g, before), mine + [b])
  {
    if mine == [] {
      assert before + mine == before;
    } else {
      assert (before + mine)[|before + mine| - 1] == mine[|mine| - 1];
      assert mine[|mine| - 1] in mine;
    }
  }

  lemma {:induction false} UnionHas(pieces: seq<Piece>, y: int, x: int)
    ensures Union(pieces)(y, x) <==> exists i | 0 <= i < |pieces| :: pieces[i].score(y, x)
  {
    if pieces != [] {
      var init, last := pieces[..|pieces| - 1], pieces[|pieces| - 1];
      UnionHas(init, y, x);
      assert Union(pieces)(y, x) <==> Union(init)(y, x) || last.score(y, x);
      if i :| 0 <= i < |pieces| && pieces[i].score(y, x) {
        assert i < |init| ==> init[i] == pieces[i];
      }
    }
  }

  /** In a plane cut into square cells row by row, every cell in which `p` has a pixel comes before every cell in
      which `q` has one. */
  ghost predicate CellsFollow(g: Grid, p: Plane, q: Plane)
    requires ValidGrid(g)
  {
    forall y: int, x: int, v: int, u: int |
      0 <= y < g.h && 0 <= x < g.w && p(y, x) && 0 <= v < g.h && 0 <= u < g.w && q(v, u) ::
      y / g.block < v / g.block || (y / g.block == v / g.block && x / g.block < u / g.block)
  }

  /** The crops are in order exactly when the cells of each come before the cells of every later one. */
  lemma {:induction false} OrderedMeans(g: Grid, pieces: seq<Piece>)
    requires ValidGrid(g)
    ensures Ordered(g, pieces)
        <==> forall i, j | 0 <= i < j < |pieces| :: CellsFollow(g, pieces[i].score, pieces[j].score)
  {
    if pieces != [] {
      var init, last := pieces[..|pieces| - 1], pieces[|pieces| - 1];
      OrderedMeans(g, init);
      AllBefore(g, init, last.score);
      hide After, CellsFollow;
      forall i | 0 <= i < |init|
        ensures init[i] == pieces[i]
      {
      }
    }
  }

  lemma {:induction false} AllBefore(g: Grid, pieces: seq<Piece>, q: Plane)
    requires ValidGrid(g)
    ensures After(g, Union(pieces), q) <==> forall i | 0 <= i < |pieces| :: CellsFollow(g, pieces[i].score, q)
  {
    forall y: int, x: int
      ensures Union(pieces)(y, x) <==> exists i | 0 <= i < |pieces| :: pieces[i].score(y, x)
    {
      UnionHas(pieces, y, x);
    }
    hide Union;
    if After(g, Union(pieces), q) {
      forall i | 0 <= i < |pieces|
        ensures CellsFollow(g, pieces[i].score, q)
      {
        forall y: int, x: int, v: int, u: int |
          0 <= y < g.h && 0 <= x < g.w && pieces[i].score(y, x) && 0 <= v < g.h && 0 <= u < g.w && q(v, u)
          ensures Precedes(KeyOf(g, y, x), KeyOf(g, v, u))
        {
          assert Union(pieces)(y, x);
        }
      }
    }
  }

  lemma {:induction false} PiecesMean(g: Grid, pieces: seq<Piece>)
    ensures forall c | c in pieces ::
              ValidPiece(g, c) <==> 0 <= c.box.y0 < c.box.y1 <= g.h && 0 <= c.box.x0 < c.box.x1 <= g.w
  {
  }

  /** Cuts the crops of one frame; refused when a crop is not inside the plane, or when the nonempty
      cells of the crops do not come in strictly rising order. What is accepted is the cut of the
      crops' union, the same as scanning that plane whole. */
  method CropBlocks(g: Grid, pieces: seq<Piece>) returns (out: Option<seq<Box>>)
    requires ValidGrid(g) && forall c | c in pieces :: Within(c)
    ensures out.Some? <==> (forall c | c in pieces :: ValidPiece(g, c)) && Ordered(g, pieces)
    ensures out.Some? <==>
      && (forall c | c in pieces :: 0 <= c.box.y0 < c.box.y1 <= g.h && 0 <= c.box.x0 < c.box.x1 <= g.w)
      && forall i, j | 0 <= i < j < |pieces| :: CellsFollow(g, pieces[i].score, pieces[j].score)
    ensures out.Some? ==> IsCut(Union(pieces), g, out.value)
  {
    PiecesMean(g, pieces);
    OrderedMeans(g, pieces);
    hide IsCut, After, Within, ValidPiece, CellsFollow;
    var crops: seq<Box> := [];
    NowhereCut(g);
    assert pieces[..0] == [];
    for i := 0 to |pieces|
      invariant IsCut(Union(pieces[..i]), g, crops) && Ordered(g, pieces[..i])
      invariant forall k | 0 <= k < i :: ValidPiece(g, pieces[k])
    {
      var c := pieces[i];
      assert c in pieces;
      if !ValidPiece(g, c) {
        return None;
      }
      assert pieces[..i + 1][..i] == pieces[..i] && pieces[..i + 1][i] == c;
      var more := CropOne(g, c, crops, Union(pieces[..i]));
      if more.None? {
        DisorderStays(g, pieces, i + 1);
        return None;
      }
      crops := more.value;
    }
    assert pieces[..|pieces|] == pieces;
    out := Some(crops);
  }

  lemma {:induction false} NowhereCut(g: Grid)
    requires ValidGrid(g)
    ensures IsCut(Nowhere(), g, [])
  {
  }

  lemma {:induction false} DisorderStays(g: Grid, pieces: seq<Piece>, i: nat)
    requires ValidGrid(g) && i <= |pieces| && !Ordered(g, pieces[..i])
    ensures !Ordered(g, pieces)
    decreases |pieces|
  {
    if i < |pieces| {
      var init := pieces[..|pieces| - 1];
      assert init[..i] == pieces[..i];
      DisorderStays(g, init, i);
    } else {
      assert pieces[..i] == pieces;
    }
  }

  /** One crop that holds every nonzero pixel of a plane is cut like the plane. */
  lemma {:induction false} CropCutsPlane(g: Grid, p: Plane, c: Piece, a: seq<Box>, b: seq<Box>)
    requires ValidGrid(g) && IsCut(p, g, a) && IsCut(Union([c]), g, b)
    requires forall y, x | 0 <= y < g.h && 0 <= x < g.w :: p(y, x) <==> c.score(y, x)
    ensures a == b
  {
    assert [c][..0] == [];
    assert forall y, x :: Union([c])(y, x) <==> c.score(y, x);
    CutOfSame(p, Union([c]), g, a);
    CutUnique(Union([c]), g, a, b);
  }

  lemma {:induction false} CutOfSame(p: Plane, q: Plane, g: Grid, out: seq<Box>)
    requires ValidGrid(g) && IsCut(p, g, out)
    requires forall y, x | 0 <= y < g.h && 0 <= x < g.w :: p(y, x) <==> q(y, x)
    ensures IsCut(q, g, out)
  {
    forall b | b in out
      ensures TightIn(q, Cell(g, KeyOf(g, b.y0, b.x0)), b)
    {
      var k := KeyOf(g, b.y0, b.x0);
      RowsAreFew(g, b.y0);
      ColumnsAreFew(g, b.x0);
      forall y, x | Inside(Cell(g, k), y, x)
        ensures p(y, x) <==> q(y, x)
      {
        CellKey(g, k, y, x);
      }
      TightSame(p, q, Cell(g, k), b);
    }
  }
}
