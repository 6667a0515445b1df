/** The fused capture: masked cell bounds, batched copies, and in-place masking by strips. */
module ScoreCapture {
  import opened Options
  import opened ScoreBlocks
  import opened ScoreCutter
  import opened ScoreCropper

  type Pixel = (int, int)

  type Values = (int, int) -> nat

  /** Where a masked score is known: inside the support box, mask set, score nonzero. */
  function Known(mask: Values, scores: Values, support: Box): Plane {
    (y, x) => Inside(support, y, x) && mask(y, x) != 0 && scores(y, x) != 0
  }

  /** What the simple pipeline reads: the score where the mask is set, zero elsewhere. */
  function Masked(mask: Values, scores: Values, y: int, x: int): nat {
    if mask(y, x) != 0 then scores(y, x) else 0
  }

  ghost function Pixels(p: Plane, r: Box): set<Pixel> {
    set y, x | r.y0 <= y < r.y1 && r.x0 <= x < r.x1 && p(y, x) :: (y, x)
  }

  // One cell

  ghost function Seen(p: Plane, r: Box, row: int, column: int): set<Pixel> {
    set y, x | r.y0 <= y < r.y1 && r.x0 <= x < r.x1 && p(y, x) && (y < row || (y == row && x < column)) :: (y, x)
  }

  lemma {:induction false} InSeen(p: Plane, r: Box, row: int, column: int, c: Pixel)
    ensures c in Seen(p, r, row, column)
      <==> Inside(r, c.0, c.1) && p(c.0, c.1) && (c.0 < row || (c.0 == row && c.1 < column))
  {
    assert c == (c.0, c.1);
  }

  ghost predicate Touches(s: set<Pixel>, b: Box) {
    && (exists c :: c in s && c.0 == b.y0) && (exists c :: c in s && c.0 == b.y1 - 1)
    && (exists c :: c in s && c.1 == b.x0) && (exists c :: c in s && c.1 == b.x1 - 1)
  }

  /** The running extremes over the pixels seen. */
  ghost predicate Extremes(s: set<Pixel>, r: Box, b: Box) {
    && (forall c | c in s :: b.y0 <= c.0 < b.y1 && b.x0 <= c.1 < b.x1)
    && (if s == {} then b == Box(r.y1, r.y0, r.x1, r.x0)
        else Touches(s, b))
  }

  function Stretch(b: Box, y: int, x: int): Box {
    Box(Min(b.y0, y), Max(b.y1, y + 1), Min(b.x0, x), Max(b.x1, x + 1))
  }

  lemma {:induction false} ExtremesGrow(s: set<Pixel>, r: Box, b: Box, y: int, x: int)
    requires Extremes(s, r, b) && Inside(r, y, x)
    ensures Extremes(s + {(y, x)}, r, Stretch(b, y, x))
  {
    var t, c := s + {(y, x)}, (y, x);
    assert c in t;
    if s != {} {
      var d :| d in s && d.0 == b.y0;
      assert d in t;
      var e :| e in s && e.0 == b.y1 - 1;
      assert e in t;
      var f :| f in s && f.1 == b.x0;
      assert f in t;
      var h :| h in s && h.1 == b.x1 - 1;
      assert h in t;
    }
  }

  lemma {:induction false} ExtremesAreTight(p: Plane, r: Box, b: Box)
    requires Extremes(Pixels(p, r), r, b) && Pixels(p, r) != {}
    ensures TightIn(p, r, b)
  {
    hide RowHit, ColumnHit, Pixels;
    forall c | c in Pixels(p, r)
      ensures Inside(r, c.0, c.1) && RowHit(p, r, c.0) && ColumnHit(p, r, c.1)
    {
      PixelHits(p, r, c);
    }
    forall y, x | Inside(r, y, x) && p(y, x)
      ensures Inside(b, y, x)
    {
      PixelIsIn(p, r, y, x);
    }
  }

  lemma {:induction false} PixelHits(p: Plane, r: Box, c: Pixel)
    requires c in Pixels(p, r)
    ensures Inside(r, c.0, c.1) && RowHit(p, r, c.0) && ColumnHit(p, r, c.1)
  {
    assert p(c.0, c.1);
  }

  lemma {:induction false} PixelIsIn(p: Plane, r: Box, y: int, x: int)
    requires Inside(r, y, x) && p(y, x)
    ensures (y, x) in Pixels(p, r)
  {
  }

  lemma {:induction false} SeenSteps(p: Plane, r: Box, row: int, column: int)
    requires Inside(r, row, column)
    ensures Seen(p, r, row, column + 1) == Seen(p, r, row, column) + (if p(row, column) then {(row, column)} else {})
    ensures (row, column) !in Seen(p, r, row, column)
  {
    forall c
      ensures c in Seen(p, r, row, column + 1)
        <==> c in Seen(p, r, row, column) || (p(row, column) && c == (row, column))
    {
      InSeen(p, r, row, column + 1, c);
      InSeen(p, r, row, column, c);
    }
  }

  lemma {:induction false} SeenRow(p: Plane, r: Box, row: int)
    ensures Seen(p, r, row, r.x1) == Seen(p, r, row + 1, r.x0)
    ensures Seen(p, r, r.y0, r.x0) == {}
    ensures Seen(p, r, r.y1, r.x0) == Pixels(p, r)
  {
    forall c
      ensures c in Seen(p, r, row, r.x1) <==> c in Seen(p, r, row + 1, r.x0)
    {
      InSeen(p, r, row, r.x1, c);
      InSeen(p, r, row + 1, r.x0, c);
    }
  }

  /** One pass over a cell: the tight box of its known pixels and how many there are. */
  method ScanCell(mask: Values, scores: Values, r: Box, ghost p: Plane) returns (box: Box, known: nat)
    requires r.y0 <= r.y1 && r.x0 <= r.x1
    requires forall y, x | Inside(r, y, x) :: p(y, x) <==> mask(y, x) != 0 && scores(y, x) != 0
    ensures known == |Pixels(p, r)|
    ensures known > 0 ==> TightIn(p, r, box)
    ensures known > 0 <==> Any(p, r)
  {
    hide Seen, Extremes, Stretch, TightIn;
    box, known := Box(r.y1, r.y0, r.x1, r.x0), 0;
    SeenRow(p, r, r.y0);
    NoExtremes(r);
    for row := r.y0 to r.y1
      invariant known == |Seen(p, r, row, r.x0)| && Extremes(Seen(p, r, row, r.x0), r, box)
    {
      for column := r.x0 to r.x1
        invariant known == |Seen(p, r, row, column)| && Extremes(Seen(p, r, row, column), r, box)
      {
        SeenSteps(p, r, row, column);
        if mask(row, column) != 0 && scores(row, column) != 0 {
          ExtremesGrow(Seen(p, r, row, column), r, box, row, column);
          box := Stretch(box, row, column);
          known := known + 1;
        }
      }
      SeenRow(p, r, row);
    }
    PixelsAreAny(p, r);
    if known > 0 {
      ExtremesAreTight(p, r, box);
    }
  }

  lemma {:induction false} NoExtremes(r: Box)
    ensures Extremes({}, r, Box(r.y1, r.y0, r.x1, r.x0))
  {
  }

  lemma {:induction false} PixelsAreAny(p: Plane, r: Box)
    ensures Pixels(p, r) != {} <==> Any(p, r)
  {
    if y, x :| Inside(r, y, x) && p(y, x) {
      assert (y, x) in Pixels(p, r);
    }
    if c :| c in Pixels(p, r) {
      assert Inside(r, c.0, c.1) && p(c.0, c.1);
    }
  }

  // A frame

  datatype Record = Record(box: Box, known: nat)

  function BoxesOf(records: seq<Record>): (out: seq<Box>)
    ensures |out| == |records| && forall i | 0 <= i < |out| :: out[i] == records[i].box
  {
    seq(|records|, i requires 0 <= i < |records| => records[i].box)
  }

  /** Inside a cell the known pixels are those inside the clipped cell. */
  lemma {:induction false} CountClipped(g: Grid, c: Piece, k: Key)
    requires ValidGrid(g) && ValidPiece(g, c) && Within(c)
    ensures Pixels(c.score, Clip(Cell(g, k), c.box)) == Pixels(c.score, Cell(g, k))
  {
  }

  lemma {:induction false} CountTight(p: Plane, r: Box, b: Box)
    requires TightIn(p, r, b)
    ensures Pixels(p, r) == Pixels(p, b)
  {
  }

  method CaptureCell(g: Grid, mask: Values, scores: Values, support: Box, k: Key) returns (box: Box, known: nat)
    requires ValidGrid(g) && ValidPiece(g, Piece(support, Known(mask, scores, support)))
    requires Cell(g, k).x0 < support.x1 && support.x0 < Cell(g, k).x1
    requires Cell(g, k).y0 < support.y1 && support.y0 < Cell(g, k).y1
    ensures known > 0 <==> Any(Known(mask, scores, support), Cell(g, k))
    ensures known > 0 ==> TightIn(Known(mask, scores, support), Cell(g, k), box)
    ensures known > 0 ==> known == |Pixels(Known(mask, scores, support), box)|
  {
    hide TightIn, Any, Pixels;
    var c := Piece(support, Known(mask, scores, support));
    var cell := Cell(g, k);
    var r := Clip(cell, support);
    ClippedCell(g, c, k);
    CountClipped(g, c, k);
    box, known := ScanCell(mask, scores, r, c.score);
    if known > 0 {
      CountTight(c.score, cell, box);
    }
  }

  /** Cuts a frame's support box cell by cell, counting the known pixels of each crop. */
  method MaskedCellBounds(g: Grid, mask: Values, scores: Values, support: Box) returns (records: seq<Record>)
    requires ValidGrid(g) && ValidPiece(g, Piece(support, Known(mask, scores, support)))
    ensures IsCut(Known(mask, scores, support), g, BoxesOf(records))
    ensures forall r | r in records :: r.known == |Pixels(Known(mask, scores, support), r.box)| > 0
  {
    hide CutUpTo, TightIn, Any, IsCut, Cell, Pixels;
    var c := Piece(support, Known(mask, scores, support));
    records := [];
    PieceBegins(g, c);
    assert BoxesOf(records) == [];
    var row: int := support.y0 / g.block;
    while row * g.block < support.y1
      invariant row >= support.y0 / g.block >= 0
      invariant CutUpTo(c.score, g, BoxesOf(records), Key(row, 0))
      invariant forall r | r in records :: r.known == |Pixels(c.score, r.box)| > 0
      decreases support.y1 - row * g.block
    {
      RowBegins(g, c, BoxesOf(records), row);
      var column: int := support.x0 / g.block;
      while column * g.block < support.x1
        invariant column >= support.x0 / g.block >= 0
        invariant CutUpTo(c.score, g, BoxesOf(records), Key(row, column))
        invariant forall r | r in records :: r.known == |Pixels(c.score, r.box)| > 0
        decreases support.x1 - column * g.block
      {
        var k := Key(row, column);
        CellReaches(g, c, k);
        var box, known := CaptureCell(g, mask, scores, support, k);
        CutNext(c.score, g, BoxesOf(records), k, if known > 0 then Some(box) else None);
        if known > 0 {
          assert BoxesOf(records + [Record(box, known)]) == BoxesOf(records) + [box];
          records := records + [Record(box, known)];
        }
        NextMultiple(column, column + 1, g.block);
        column := column + 1;
      }
      RowEnds(g, c, BoxesOf(records), row, column);
      NextMultiple(row, row + 1, g.block);
      row := row + 1;
    }
    PieceEnds(g, c, BoxesOf(records), row);
  }

  /** The fused scan cuts exactly where the simple pipeline does when it reads the support box,
      masks it and cuts the crop. */
  lemma {:induction false} FusedCutsAlike(g: Grid, mask: Values, scores: Values, support: Box, records: seq<Record>,
        out: seq<Box>)
    requires ValidGrid(g)
    requires IsCut(Known(mask, scores, support), g, BoxesOf(records))
    requires IsCut(Union([Piece(support, Known(mask, scores, support))]), g, out)
    ensures BoxesOf(records) == out
  {
    var p := Known(mask, scores, support);
    CropCutsPlane(g, p, Piece(support, p), BoxesOf(records), out);
  }
}
