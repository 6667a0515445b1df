/** The scans that cut planes and reader crops into blocks. */
module ScoreCutter {
  import opened Options
  import opened ScoreBlocks

  // Occupancy flags of a region

  function RowFlags(p: Plane, r: Box): (flags: seq<bool>)
    requires r.y0 <= r.y1
    ensures |flags| == r.y1 - r.y0
    ensures forall i | 0 <= i < |flags| :: flags[i] <==> RowHit(p, r, r.y0 + i)
  {
    seq(r.y1 - r.y0, i requires 0 <= i => RowHit(p, r, r.y0 + i))
  }

  function ColumnFlags(p: Plane, r: Box): (flags: seq<bool>)
    requires r.x0 <= r.x1
    ensures |flags| == r.x1 - r.x0
    ensures forall i | 0 <= i < |flags| :: flags[i] <==> ColumnHit(p, r, r.x0 + i)
  {
    seq(r.x1 - r.x0, i requires 0 <= i => ColumnHit(p, r, r.x0 + i))
  }

  ghost predicate IsSpan(flags: seq<bool>, first: int, last: int) {
    && 0 <= first <= last < |flags| && flags[first] && flags[last]
    && forall i | 0 <= i < |flags| && flags[i] :: first <= i <= last
  }

  /** The first and the last set flag, if any is set. */
  method Span(flags: seq<bool>) returns (any: bool, first: int, last: int)
    ensures any <==> exists i :: 0 <= i < |flags| && flags[i]
    ensures any ==> IsSpan(flags, first, last)
  {
    any, first, last := false, 0, -1;
    for i := 0 to |flags|
      invariant any <==> exists k :: 0 <= k < i && flags[k]
      invariant any ==> 0 <= first <= last < i && flags[first] && flags[last] && forall k | 0 <= k < i && flags[k] ::
                first <= k <= last
    {
      if flags[i] {
        if !any {
          first := i;
        }
        any, last := true, i;
      }
    }
  }

  /** The spans of the occupied rows and columns make the tight box. */
  lemma {:induction false} SpansAreTight(p: Plane, r: Box, top: int, bottom: int, left: int, right: int)
    requires r.y0 <= r.y1 && r.x0 <= r.x1
    requires IsSpan(RowFlags(p, r), top, bottom) && IsSpan(ColumnFlags(p, r), left, right)
    ensures TightIn(p, r, Box(r.y0 + top, r.y0 + bottom + 1, r.x0 + left, r.x0 + right + 1))
  {
    forall y, x | Inside(r, y, x) && p(y, x)
      ensures top <= y - r.y0 <= bottom && left <= x - r.x0 <= right
    {
      assert RowHit(p, r, r.y0 + (y - r.y0)) && ColumnHit(p, r, r.x0 + (x - r.x0));
      assert RowFlags(p, r)[y - r.y0] && ColumnFlags(p, r)[x - r.x0];
    }
  }

  lemma {:induction false} FlagsTogether(p: Plane, r: Box)
    requires r.y0 <= r.y1 && r.x0 <= r.x1
    ensures (exists i :: 0 <= i < |RowFlags(p, r)| && RowFlags(p, r)[i]) <==> Any(p, r)
    ensures (exists i :: 0 <= i < |ColumnFlags(p, r)| && ColumnFlags(p, r)[i]) <==> Any(p, r)
  {
    hide RowFlags, ColumnFlags, Any;
    if Any(p, r) {
      AnyHits(p, r);
      var y :| r.y0 <= y < r.y1 && RowHit(p, r, y);
      assert RowHit(p, r, r.y0 + (y - r.y0)) && RowFlags(p, r)[y - r.y0];
      var x :| r.x0 <= x < r.x1 && ColumnHit(p, r, x);
      assert ColumnHit(p, r, r.x0 + (x - r.x0)) && ColumnFlags(p, r)[x - r.x0];
    }
    if i :| 0 <= i < |RowFlags(p, r)| && RowFlags(p, r)[i] {
      RowIsAny(p, r, r.y0 + i);
    }
    if i :| 0 <= i < |ColumnFlags(p, r)| && ColumnFlags(p, r)[i] {
      ColumnIsAny(p, r, r.x0 + i);
    }
  }

  lemma {:induction false} AnyHits(p: Plane, r: Box)
    requires Any(p, r)
    ensures exists y :: r.y0 <= y < r.y1 && RowHit(p, r, y)
    ensures exists x :: r.x0 <= x < r.x1 && ColumnHit(p, r, x)
  {
    var y, x :| Inside(r, y, x) && p(y, x);
    assert RowHit(p, r, y) && ColumnHit(p, r, x);
  }

  lemma {:induction false} RowIsAny(p: Plane, r: Box, y: int)
    requires r.y0 <= y < r.y1 && RowHit(p, r, y)
    ensures Any(p, r)
  {
    var x :| r.x0 <= x < r.x1 && p(y, x);
    assert Inside(r, y, x);
  }

  lemma {:induction false} ColumnIsAny(p: Plane, r: Box, x: int)
    requires r.x0 <= x < r.x1 && ColumnHit(p, r, x)
    ensures Any(p, r)
  {
    var y :| r.y0 <= y < r.y1 && p(y, x);
    assert Inside(r, y, x);
  }

  /** The tight box of a region, from its own rows and columns. */
  method ScanTile(p: Plane, r: Box) returns (box: Option<Box>)
    requires r.y0 <= r.y1 && r.x0 <= r.x1
    ensures box.Some? <==> Any(p, r)
    ensures box.Some? ==> TightIn(p, r, box.value)
  {
    FlagsTogether(p, r);
    var any, top, bottom := Span(RowFlags(p, r));
    var some, left, right := Span(ColumnFlags(p, r));
    if !any {
      return None;
    }
    SpansAreTight(p, r, top, bottom, left, right);
    box := Some(Box(r.y0 + top, r.y0 + bottom + 1, r.x0 + left, r.x0 + right + 1));
  }

  /** The same from one occupancy scan of the whole band: the tile's columns are a slice of the band's. */
  method ScanTileInBand(p: Plane, band: Box, columnAny: seq<bool>, r: Box) returns (box: Option<Box>)
    requires band.x0 <= band.x1 && columnAny == ColumnFlags(p, band)
    requires r.y0 == band.y0 <= r.y1 == band.y1 && band.x0 <= r.x0 <= r.x1 <= band.x1
    ensures box.Some? <==> Any(p, r)
    ensures box.Some? ==> TightIn(p, r, box.value)
  {
    FlagsTogether(p, r);
    BandSlice(p, band, r);
    var any, top, bottom := Span(RowFlags(p, r));
    var some, left, right := Span(columnAny[r.x0 - band.x0..r.x1 - band.x0]);
    if !any {
      return None;
    }
    SpansAreTight(p, r, top, bottom, left, right);
    box := Some(Box(r.y0 + top, r.y0 + bottom + 1, r.x0 + left, r.x0 + right + 1));
  }

  lemma {:induction false} BandSlice(p: Plane, band: Box, r: Box)
    requires r.y0 == band.y0 && r.y1 == band.y1 && band.x0 <= r.x0 <= r.x1 <= band.x1
    ensures ColumnFlags(p, band)[r.x0 - band.x0..r.x1 - band.x0] == ColumnFlags(p, r)
  {
    forall i | 0 <= i < r.x1 - r.x0
      ensures ColumnFlags(p, band)[r.x0 - band.x0 + i] == ColumnFlags(p, r)[i]
    {
      assert ColumnHit(p, band, band.x0 + (r.x0 - band.x0 + i)) <==> ColumnHit(p, r, r.x0 + i);
    }
  }

  // Growing a cut cell by cell

  lemma {:induction false} CellKey(g: Grid, k: Key, y: int, x: int)
    requires ValidGrid(g) && Inside(Cell(g, k), y, x) && k.row >= 0 && k.column >= 0
    ensures KeyOf(g, y, x) == k && 0 <= y < g.h && 0 <= x < g.w
  {
    ProductIsNatural(k.row, g.block);
    ProductIsNatural(k.column, g.block);
    InItsCell(g, k, y, x);
  }

  /** Cutting the next cell of the row extends the cut. */
  lemma {:induction false} CutNext(p: Plane, g: Grid, out: seq<Box>, k: Key, box: Option<Box>)
    requires ValidGrid(g) && CutUpTo(p, g, out, k) && k.row >= 0 && k.column >= 0
    requires box.Some? <==> Any(p, Cell(g, k))
    requires box.Some? ==> TightIn(p, Cell(g, k), box.value)
    ensures CutUpTo(p, g, if box.Some? then out + [box.value] else out, Key(k.row, k.column + 1))
  {
    if box.Some? {
      CutAdds(p, g, out, k, box.value);
    } else {
      hide KeysRise, TightIn, Cell;
      forall y, x | 0 <= y < g.h && 0 <= x < g.w && p(y, x) && Precedes(KeyOf(g, y, x), Key(k.row, k.column + 1))
        ensures Precedes(KeyOf(g, y, x), k)
      {
        InItsCell(g, k, y, x);
      }
    }
  }

  /** A nonempty cell adds its tight box behind the crops before it. */
  lemma {:induction false} CutAdds(p: Plane, g: Grid, out: seq<Box>, k: Key, box: Box)
    requires ValidGrid(g) && CutUpTo(p, g, out, k) && k.row >= 0 && k.column >= 0 && TightIn(p, Cell(g, k), box)
    ensures CutUpTo(p, g, out + [box], Key(k.row, k.column + 1))
  {
    hide TightIn, Cell, KeyOf, KeysRise;
    BoxOfCell(p, g, k, box);
    RiseAdds(g, out, k, box);
    var next := out + [box];
    assert forall b | b in next :: b in out || b == box;
    forall y, x | 0 <= y < g.h && 0 <= x < g.w && p(y, x) && Precedes(KeyOf(g, y, x), Key(k.row, k.column + 1))
      ensures exists b :: b in next && Inside(b, y, x)
    {
      if Precedes(KeyOf(g, y, x), k) {
        var b :| b in out && Inside(b, y, x);
        assert b in next;
      } else {
        InItsBox(p, g, k, box, y, x);
        assert box in next;
      }
    }
  }

  lemma {:induction false} BoxOfCell(p: Plane, g: Grid, k: Key, box: Box)
    requires ValidGrid(g) && k.row >= 0 && k.column >= 0 && TightIn(p, Cell(g, k), box)
    ensures KeyOf(g, box.y0, box.x0) == k
    ensures 0 <= box.y0 < box.y1 <= g.h && 0 <= box.x0 < box.x1 <= g.w
  {
    assert Inside(Cell(g, k), box.y0, box.x0) && Inside(Cell(g, k), box.y1 - 1, box.x1 - 1);
    hide TightIn;
    CellKey(g, k, box.y0, box.x0);
    CellKey(g, k, box.y1 - 1, box.x1 - 1);
  }

  lemma {:induction false} InItsBox(p: Plane, g: Grid, k: Key, box: Box, y: int, x: int)
    requires ValidGrid(g) && TightIn(p, Cell(g, k), box) && p(y, x) && 0 <= y < g.h && 0 <= x < g.w
             && KeyOf(g, y, x) == k
    ensures Inside(box, y, x)
  {
    InItsCell(g, k, y, x);
  }

  lemma {:induction false} RiseAdds(g: Grid, out: seq<Box>, k: Key, box: Box)
    requires ValidGrid(g) && KeysRise(g, out) && KeyOf(g, box.y0, box.x0) == k
    requires forall b | b in out :: Precedes(KeyOf(g, b.y0, b.x0), k)
    ensures KeysRise(g, out + [box])
  {
    hide KeyOf;
  }

  /** Cells that hold nothing change nothing. */
  lemma {:induction false} CutSkip(p: Plane, g: Grid, out: seq<Box>, k: Key, to: Key)
    requires ValidGrid(g) && CutUpTo(p, g, out, k)
    requires forall b :: Precedes(b, k) ==> Precedes(b, to)
    requires forall y, x | 0 <= y < g.h && 0 <= x < g.w && p(y, x) && Precedes(KeyOf(g, y, x), to) ::
             Precedes(KeyOf(g, y, x), k)
    ensures CutUpTo(p, g, out, to)
  {
  }

  lemma {:induction false} NothingCut(p: Plane, g: Grid)
    requires ValidGrid(g)
    ensures CutUpTo(p, g, [], Key(0, 0))
  {
    forall y, x | 0 <= y < g.h && 0 <= x < g.w
      ensures !Precedes(KeyOf(g, y, x), Key(0, 0))
    {
      RowsAreFew(g, y);
      ColumnsAreFew(g, x);
    }
  }

  lemma {:induction false} ColumnsAreFew(g: Grid, x: int)
    requires ValidGrid(g) && 0 <= x < g.w
    ensures 0 <= x / g.block < g.w
  {
    RowsAreFew(Grid(g.w, g.h, g.block), x);
  }

  /** A row of cells ends where its columns leave the plane. */
  lemma {:induction false} CutRowEnds(p: Plane, g: Grid, out: seq<Box>, row: nat, column: nat)
    requires ValidGrid(g) && CutUpTo(p, g, out, Key(row, column)) && column * g.block >= g.w
    ensures CutUpTo(p, g, out, Key(row + 1, 0))
  {
    forall y, x | 0 <= y < g.h && 0 <= x < g.w && Precedes(KeyOf(g, y, x), Key(row + 1, 0))
      ensures Precedes(KeyOf(g, y, x), Key(row, column))
    {
      ColumnsAreFew(g, x);
      KeyBelow(g.block, column, x);
    }
    CutSkip(p, g, out, Key(row, column), Key(row + 1, 0));
  }

  lemma {:induction false} KeyBelow(block: nat, k: int, i: int)
    requires block > 0 && i < k * block
    ensures i / block < k
  {
    InItsSpan(block, i / block, i);
    if k <= i / block {
      if k < i / block {
        NextMultiple(k, i / block, block);
      }
    }
  }

  lemma {:induction false} CutEnds(p: Plane, g: Grid, out: seq<Box>, row: nat)
    requires ValidGrid(g) && CutUpTo(p, g, out, Key(row, 0)) && row * g.block >= g.h
    ensures IsCut(p, g, out)
  {
    forall b | b in out
      ensures Precedes(KeyOf(g, b.y0, b.x0), Key(g.h, 0))
    {
      RowsAreFew(g, b.y0);
    }
    forall y, x | 0 <= y < g.h && 0 <= x < g.w
      ensures Precedes(KeyOf(g, y, x), Key(row, 0))
    {
      KeyBelow(g.block, row, y);
    }
  }

  /** Scans a plane band by band and cuts its nonempty cells; refuses a bad block size. */
  method PlaneBlocks(p: Plane, g: Grid) returns (out: Option<seq<Box>>)
    ensures out.Some? <==> 1 <= g.block <= 65535
    ensures out.Some? ==> IsCut(p, g, out.value)
  {
    hide CutUpTo, TightIn, Any, IsCut;
    if !(1 <= g.block <= 65535) {
      return None;
    }
    var crops: seq<Box> := [];
    NothingCut(p, g);
    var row: nat := 0;
    while row * g.block < g.h
      invariant CutUpTo(p, g, crops, Key(row, 0))
      decreases g.h - row * g.block
    {
      var column: nat := 0;
      while column * g.block < g.w
        invariant CutUpTo(p, g, crops, Key(row, column))
        decreases g.w - column * g.block
      {
        var r := Cell(g, Key(row, column));
        var box := ScanTile(p, r);
        CutNext(p, g, crops, Key(row, column), box);
        if box.Some? {
          crops := crops + [box.value];
        }
        NextMultiple(column, column + 1, g.block);
        column := column + 1;
      }
      CutRowEnds(p, g, crops, row, column);
      NextMultiple(row, row + 1, g.block);
      row := row + 1;
    }
    CutEnds(p, g, crops, row);
    out := Some(crops);
  }
}
