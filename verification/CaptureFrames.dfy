/** The bytes that a frame's encoded cells can take, against what a capture is charged for them. */
module CaptureFrames {
  import C = CapturePlan
  import opened ScoreBlocks

  type Pixel = (int, int)

  /** zlib's bound for the compressed length of `n` bytes. */
  function Bound(n: nat): nat {
    n + n / 4096 + n / 16384 + n / 33554432 + 13
  }

  function AreaOf(b: Box): nat
    requires b.y0 <= b.y1 && b.x0 <= b.x1
  {
    (b.y1 - b.y0) * (b.x1 - b.x0)
  }

  // Counting pixels

  function PixelsOf(b: Box): (s: set<Pixel>)
    ensures forall c: Pixel :: c in s <==> Inside(b, c.0, c.1)
  {
    set y, x | b.y0 <= y < b.y1 && b.x0 <= x < b.x1 :: (y, x)
  }

  lemma {:induction false} UnionSize(a: set<Pixel>, b: set<Pixel>)
    requires a !! b
    ensures |a + b| == |a| + |b|
  {
  }

  lemma {:induction false} RowSize(y: int, x0: int, x1: int)
    requires x0 <= x1
    ensures |PixelsOf(Box(y, y + 1, x0, x1))| == x1 - x0
    decreases x1 - x0
  {
    var row := PixelsOf(Box(y, y + 1, x0, x1));
    if x0 == x1 {
      assert row == {};
    } else {
      RowSize(y, x0, x1 - 1);
      UnionSize(PixelsOf(Box(y, y + 1, x0, x1 - 1)), {(y, x1 - 1)});
      assert row == PixelsOf(Box(y, y + 1, x0, x1 - 1)) + {(y, x1 - 1)};
    }
  }

  lemma {:induction false} OneRowMore(h: nat, w: nat)
    requires h > 0
    ensures h * w == (h - 1) * w + w
  {
  }

  lemma {:induction false} BoxSize(b: Box)
    requires b.y0 <= b.y1 && b.x0 <= b.x1
    ensures |PixelsOf(b)| == AreaOf(b)
    decreases b.y1 - b.y0
  {
    if b.y0 == b.y1 {
      assert PixelsOf(b) == {};
    } else {
      var upper, lower := b.(y1 := b.y1 - 1), Box(b.y1 - 1, b.y1, b.x0, b.x1);
      BoxSize(upper);
      RowSize(b.y1 - 1, b.x0, b.x1);
      UnionSize(PixelsOf(upper), PixelsOf(lower));
      assert PixelsOf(b) == PixelsOf(upper) + PixelsOf(lower);
      OneRowMore(b.y1 - b.y0, b.x1 - b.x0);
    }
  }

  lemma {:induction false} PartSize(a: set<Pixel>, b: set<Pixel>)
    requires a <= b
    ensures |a| <= |b|
  {
    UnionSize(a, b - a);
    assert b == a + (b - a);
  }

  // The cells of a frame

  /** The crops of a frame: one to a cell of the grid, in grid order, each inside its cell. */
  ghost predicate Celled(g: Grid, out: seq<Box>)
    requires ValidGrid(g)
  {
    && KeysRise(g, out)
    && forall b | b in out ::
         && 0 <= b.y0 < b.y1 <= g.h && 0 <= b.x0 < b.x1 <= g.w
         && KeyOf(g, b.y1 - 1, b.x1 - 1) == KeyOf(g, b.y0, b.x0)
  }

  lemma {:induction false} TightIsCelled(p: Plane, g: Grid, b: Box)
    requires ValidGrid(g) && 0 <= b.y0 < b.y1 <= g.h && 0 <= b.x0 < b.x1 <= g.w
    requires TightIn(p, Cell(g, KeyOf(g, b.y0, b.x0)), b)
    ensures KeyOf(g, b.y1 - 1, b.x1 - 1) == KeyOf(g, b.y0, b.x0)
  {
    hide KeyOf, RowHit, ColumnHit, Cell;
    InItsCell(g, KeyOf(g, b.y0, b.x0), b.y1 - 1, b.x1 - 1);
  }

  /** Every cut of a plane is made of such crops. */
  lemma {:induction false} CutIsCelled(p: Plane, g: Grid, out: seq<Box>)
    requires ValidGrid(g) && IsCut(p, g, out)
    ensures Celled(g, out)
  {
    hide KeyOf, KeysRise, TightIn, Cell, Precedes;
    forall b | b in out
      ensures KeyOf(g, b.y1 - 1, b.x1 - 1) == KeyOf(g, b.y0, b.x0)
    {
      TightIsCelled(p, g, b);
    }
  }

  function Areas(out: seq<Box>): nat
    requires forall b | b in out :: b.y0 <= b.y1 && b.x0 <= b.x1
  {
    if out == [] then 0 else Areas(out[..|out| - 1]) + AreaOf(out[|out| - 1])
  }

  ghost function Covered(out: seq<Box>): set<Pixel> {
    if out == [] then {} else Covered(out[..|out| - 1]) + PixelsOf(out[|out| - 1])
  }

  lemma {:induction false} QuotientRises(a: int, b: int, d: nat)
    requires d > 0 && a <= b
    ensures a / d <= b / d
  {
    var p, q := a / d, b / d;
    InItsSpan(d, p, a);
    InItsSpan(d, q, b);
    if p > q {
      NextMultiple(q, p, d);
    }
  }

  lemma {:induction false} PixelKey(g: Grid, b: Box, y: int, x: int)
    requires ValidGrid(g) && Inside(b, y, x) && KeyOf(g, b.y1 - 1, b.x1 - 1) == KeyOf(g, b.y0, b.x0)
    ensures KeyOf(g, y, x) == KeyOf(g, b.y0, b.x0)
  {
    QuotientRises(b.y0, y, g.block);
    QuotientRises(y, b.y1 - 1, g.block);
    QuotientRises(b.x0, x, g.block);
    QuotientRises(x, b.x1 - 1, g.block);
  }

  lemma {:induction false} InCovered(g: Grid, out: seq<Box>, c: Pixel)
    requires ValidGrid(g) && Celled(g, out) && c in Covered(out)
    ensures 0 <= c.0 < g.h && 0 <= c.1 < g.w
    ensures exists i | 0 <= i < |out| :: KeyOf(g, c.0, c.1) == KeyOf(g, out[i].y0, out[i].x0)
  {
    var last := out[|out| - 1];
    if c in PixelsOf(last) {
      assert last in out;
      PixelKey(g, last, c.0, c.1);
    } else {
      Fewer(g, out);
      InCovered(g, out[..|out| - 1], c);
      hide KeyOf;
    }
  }

  lemma {:induction false} Fewer(g: Grid, out: seq<Box>)
    requires ValidGrid(g) && Celled(g, out) && out != []
    ensures Celled(g, out[..|out| - 1])
    ensures forall b | b in out :: b.y0 <= b.y1 && b.x0 <= b.x1
  {
    hide KeyOf;
  }

  lemma {:induction false} KeysApart(g: Grid, out: seq<Box>, i: nat)
    requires ValidGrid(g) && Celled(g, out) && i < |out| - 1
    ensures KeyOf(g, out[i].y0, out[i].x0) != KeyOf(g, out[|out| - 1].y0, out[|out| - 1].x0)
  {
    hide KeyOf;
    assert Precedes(KeyOf(g, out[i].y0, out[i].x0), KeyOf(g, out[|out| - 1].y0, out[|out| - 1].x0));
  }

  lemma {:induction false} LastApart(g: Grid, out: seq<Box>)
    requires ValidGrid(g) && Celled(g, out) && out != []
    ensures Covered(out[..|out| - 1]) !! PixelsOf(out[|out| - 1])
  {
    var init, last := out[..|out| - 1], out[|out| - 1];
    Fewer(g, out);
    assert last in out;
    forall i: nat | i < |init|
      ensures KeyOf(g, init[i].y0, init[i].x0) != KeyOf(g, last.y0, last.x0)
    {
      KeysApart(g, out, i);
    }
    hide KeyOf, KeysRise;
    forall c: Pixel | c in PixelsOf(last)
      ensures c !in Covered(init)
    {
      PixelKey(g, last, c.0, c.1);
      if c in Covered(init) {
        InCovered(g, init, c);
      }
    }
  }

  /** Crops of different cells never share a pixel, so together they have no more than the plane. */
  lemma {:induction false} AreasFit(g: Grid, out: seq<Box>)
    requires ValidGrid(g) && Celled(g, out)
    ensures forall b | b in out :: b.y0 <= b.y1 && b.x0 <= b.x1
    ensures Areas(out) == |Covered(out)| && Covered(out) <= PixelsOf(Box(0, g.h, 0, g.w))
  {
    if out != [] {
      var init, last := out[..|out| - 1], out[|out| - 1];
      Fewer(g, out);
      AreasFit(g, init);
      LastApart(g, out);
      UnionSize(Covered(init), PixelsOf(last));
      assert last in out;
      BoxSize(last);
      hide KeyOf, KeysRise, AreaOf;
    }
  }

  ghost function KeysOf(g: Grid, out: seq<Box>): set<Pixel>
    requires ValidGrid(g)
  {
    set i | 0 <= i < |out| :: (KeyOf(g, out[i].y0, out[i].x0).row, KeyOf(g, out[i].y0, out[i].x0).column)
  }

  lemma {:induction false} InRange(d: nat, n: nat, i: int)
    requires d > 0 && 0 <= i < n
    ensures 0 <= i / d < C.Ceil(n, d)
  {
    var q, c := i / d, C.Ceil(n, d);
    InItsSpan(d, q, i);
    InItsSpan(d, c, n + d - 1);
    assert (c - 1) * d + d == c * d;
    if q < 0 {
      NextMultiple(q, 0, d);
    }
    if c <= q {
      NextMultiple(c - 1, q, d);
    }
  }

  /** No frame has more crops than the grid has cells. */
  lemma {:induction false} CropsFit(g: Grid, out: seq<Box>)
    requires ValidGrid(g) && Celled(g, out)
    ensures |out| <= C.Ceil(g.h, g.block) * C.Ceil(g.w, g.block)
  {
    var grid := Box(0, C.Ceil(g.h, g.block), 0, C.Ceil(g.w, g.block));
    KeysCount(g, out);
    forall i | 0 <= i < |out|
      ensures Inside(grid, KeyOf(g, out[i].y0, out[i].x0).row, KeyOf(g, out[i].y0, out[i].x0).column)
    {
      assert out[i] in out;
      InRange(g.block, g.h, out[i].y0);
      InRange(g.block, g.w, out[i].x0);
    }
    BoxSize(grid);
    hide KeyOf;
    PartSize(KeysOf(g, out), PixelsOf(grid));
  }

  lemma {:induction false} KeysCount(g: Grid, out: seq<Box>)
    requires ValidGrid(g) && Celled(g, out)
    ensures |KeysOf(g, out)| == |out|
  {
    hide KeyOf;
    if out == [] {
      assert KeysOf(g, out) == {};
    } else {
      var init, last := out[..|out| - 1], out[|out| - 1];
      Fewer(g, out);
      KeysCount(g, init);
      var k := KeyOf(g, last.y0, last.x0);
      forall i | 0 <= i < |init|
        ensures KeyOf(g, init[i].y0, init[i].x0) != k
      {
        KeysApart(g, out, i);
      }
      assert (k.row, k.column) !in KeysOf(g, init);
      UnionSize(KeysOf(g, init), {(k.row, k.column)});
      assert KeysOf(g, out) == KeysOf(g, init) + {(k.row, k.column)};
    }
  }

  // The bytes

  /** The bytes of a frame's encoded cells, each with what is kept beside it. */
  function Stored(sizes: seq<nat>): nat {
    if sizes == [] then 0 else Stored(sizes[..|sizes| - 1]) + sizes[|sizes| - 1] + 768
  }

  /** The compressed cells are within the bound for their raw bytes. */
  predicate WithinBound(out: seq<Box>, sizes: seq<nat>)
    requires forall b | b in out :: b.y0 <= b.y1 && b.x0 <= b.x1
  {
    |sizes| == |out| && forall i | 0 <= i < |out| :: sizes[i] <= Bound(AreaOf(out[i]))
  }

  lemma {:induction false} BoundRises(n: nat, cell: nat)
    requires n <= cell
    ensures Bound(n) <= n + C.ZlibExtra(cell)
  {
    QuotientRises(n, cell, 4096);
    QuotientRises(n, cell, 16384);
    QuotientRises(n, cell, 33554432);
  }

  /** No crop has more pixels than a cell. */
  lemma {:induction false} CropInCell(g: Grid, b: Box)
    requires ValidGrid(g) && 0 <= b.y0 < b.y1 <= g.h && 0 <= b.x0 < b.x1 <= g.w
    requires KeyOf(g, b.y1 - 1, b.x1 - 1) == KeyOf(g, b.y0, b.x0)
    ensures AreaOf(b) <= C.Times(C.Min(g.block, g.h), C.Min(g.block, g.w))
  {
    var k := KeyOf(g, b.y0, b.x0);
    InItsSpan(g.block, k.row, b.y0);
    InItsSpan(g.block, k.row, b.y1 - 1);
    InItsSpan(g.block, k.column, b.x0);
    InItsSpan(g.block, k.column, b.x1 - 1);
    C.TimesGrows(b.y1 - b.y0, C.Min(g.block, g.h), b.x1 - b.x0, C.Min(g.block, g.w));
  }

  lemma {:induction false} OneCropMore(n: nat, e: nat)
    requires n > 0
    ensures C.Times(n, e) == C.Times(n - 1, e) + e
  {
  }

  lemma {:induction false} StoredFits(g: Grid, out: seq<Box>, sizes: seq<nat>, extra: nat)
    requires ValidGrid(g) && Celled(g, out)
    requires forall b | b in out :: b.y0 <= b.y1 && b.x0 <= b.x1
    requires WithinBound(out, sizes)
    requires extra == C.ZlibExtra(C.Times(C.Min(g.block, g.h), C.Min(g.block, g.w)))
    ensures Stored(sizes) <= Areas(out) + C.Times(|out|, extra + 768)
  {
    if out != [] {
      var init, last := out[..|out| - 1], out[|out| - 1];
      Fewer(g, out);
      assert last in out;
      CropInCell(g, last);
      BoundRises(AreaOf(last), C.Times(C.Min(g.block, g.h), C.Min(g.block, g.w)));
      hide KeyOf, KeysRise, AreaOf, Bound, C.ZlibExtra, C.Times, C.Min;
      StoredFits(g, init, sizes[..|sizes| - 1], extra);
      OneCropMore(|out|, extra + 768);
    }
  }

  /** The consumer's charge of an admitted capture holds every frame: whatever crops it has, one to a cell, and
      however badly they compress, their bytes and what is kept beside each fit. */
  lemma {:induction false} EveryFrameFits(depth: nat, height: nat, width: nat, requested: int, block: nat, budget: int,
        out: seq<Box>, sizes: seq<nat>)
    requires C.PlanCapture(depth, height, width, requested, block, budget).Admitted?
    requires 1 <= block <= 65535 && Celled(Grid(height, width, block), out)
    requires (forall b | b in out :: b.y0 <= b.y1 && b.x0 <= b.x1) && WithinBound(out, sizes)
    ensures var p := C.PlanCapture(depth, height, width, requested, block, budget).plan;
            Stored(sizes) <= p.consumer <= p.worker
  {
    hide Celled, WithinBound, Areas, Stored, C.PlanCapture, C.Ceil;
    var g := Grid(height, width, block);
    var extra := C.ZlibExtra(C.Times(C.Min(block, height), C.Min(block, width)));
    StoredFits(g, out, sizes, extra);
    AreasFit(g, out);
    CropsFit(g, out);
    PartSize(Covered(out), PixelsOf(Box(0, height, 0, width)));
    BoxSize(Box(0, height, 0, width));
    C.WorkerHoldsFrame(depth, height, width, requested, block, budget);
    ConsumerIs(depth, height, width, requested, block, budget);
    var cells := C.Times(C.Ceil(height, block), C.Ceil(width, block));
    C.TimesGrows(|out|, cells, extra + 768, C.Max(64, extra) + 768);
  }

  lemma {:induction false} ConsumerIs(depth: nat, height: nat, width: nat, requested: int, block: nat, budget: int)
    requires C.PlanCapture(depth, height, width, requested, block, budget).Admitted? && block >= 1
    ensures C.PlanCapture(depth, height, width, requested, block, budget).plan.consumer
         == C.Times(height, width)
            + C.Times(C.Times(C.Ceil(height, block), C.Ceil(width, block)),
                      C.Max(64, C.ZlibExtra(C.Times(C.Min(block, height), C.Min(block, width)))) + 768)
  {
    hide C.Times, C.ZlibExtra, C.Ceil, C.BatchBytes, C.BatchCells;
  }

  // Admission

  function CellOf(height: nat, width: nat, block: nat): nat {
    C.Times(C.Min(block, height), C.Min(block, width))
  }

  /** A request that makes sense: three dimensions of 31 bits, a worker, a block of 16 bits, a budget, and cells
      whose compressed length fits 32 bits. */
  predicate Sensible(depth: nat, height: nat, width: nat, requested: int, block: int, budget: int) {
    && 0 < depth < 0x8000_0000 && 0 < height < 0x8000_0000 && 0 < width < 0x8000_0000
    && requested >= 1 && 1 <= block <= 65535 && budget >= 1
    && Bound(CellOf(height, width, block)) < 0x1_0000_0000
  }

  /** What one worker needs: a frame, a mebibyte for its codec, two raw cells and a batch of compressed ones. */
  lemma {:induction false} WorkerPays(depth: nat, height: nat, width: nat, requested: int, block: nat, budget: int)
    requires C.PlanCapture(depth, height, width, requested, block, budget).Admitted? && block >= 1
    ensures var p, cell := C.PlanCapture(depth, height, width, requested, block, budget).plan,
                           CellOf(height, width, block);
      && p.worker == p.consumer + 1024 * 1024 + 2 * cell + p.batchBytes
      && p.batchBytes
         >= (if p.batchCells == 0 then 0 else C.Times(p.batchCells, Bound(cell)) + 8 * (p.batchCells + 1) + 8)
      && (Bound(cell) >= cell + 64 && p.batchCells > 0 ==>
            p.batchBytes == C.Times(p.batchCells, Bound(cell)) + 8 * (p.batchCells + 1) + 8)
      && p.batchCells <= 16 && C.Times(p.batchCells, cell) <= 256 * 1024
      && (p.batchCells == 16 || C.Times(p.batchCells + 1, cell) > 256 * 1024)
  {
    hide C.Times, C.ZlibExtra, C.Ceil, C.FrameBytes;
    var p, cell := C.PlanCapture(depth, height, width, requested, block, budget).plan, CellOf(height, width, block);
    C.AdmittedFits(depth, height, width, requested, block, budget);
    C.CellIsPositive(height, width, block);
    BatchIsFull(cell);
    ExtraIs(cell);
    C.TimesGrows(p.batchCells, p.batchCells, Bound(cell), cell + C.Max(64, C.ZlibExtra(cell)));
  }

  lemma {:induction false} ExtraIs(cell: nat)
    ensures Bound(cell) == cell + C.ZlibExtra(cell)
  {
  }

  lemma {:induction false} BatchIsFull(cell: nat)
    requires cell > 0
    ensures C.BatchCells(cell) == 16 || C.Times(C.BatchCells(cell) + 1, cell) > 256 * 1024
  {
    JustOver(256 * 1024, cell);
  }

  lemma {:induction false} JustOver(total: nat, part: nat)
    requires part > 0
    ensures C.Times(total / part + 1, part) > total
  {
    InItsSpan(part, total / part, total);
    assert (total / part + 1) * part == total / part * part + part;
  }

  function FrameCharge(height: nat, width: nat, block: nat): nat
    requires block > 0
  {
    C.Times(height, width) + C.Times(C.Times(C.Ceil(height, block), C.Ceil(width, block)),
                                     C.Max(64, C.ZlibExtra(CellOf(height, width, block))) + 768)
  }

  function WorkerCharge(height: nat, width: nat, block: nat): nat
    requires height > 0 && width > 0 && block > 0
  {
    var cell := CellOf(height, width, block);
    C.CellIsPositive(height, width, block);
    FrameCharge(height, width, block) + 1024 * 1024 + 2 * cell
    + C.BatchBytes(C.BatchCells(cell), cell, C.ZlibExtra(cell))
  }

  /** A capture is turned away exactly when it makes no sense, or its tables or one worker and the consumer's
      frame cost more than the budget; and an admitted one gets every worker it asks for, has planes for, or
      can pay. */
  lemma {:induction false} AdmitsAllThatFit(depth: nat, height: nat, width: nat, requested: int, block: int,
        budget: int)
    ensures var outcome := C.PlanCapture(depth, height, width, requested, block, budget);
            var base := 256 * 1024 + 33 * depth;
      && (outcome.Invalid? <==> !Sensible(depth, height, width, requested, block, budget))
      && (outcome.Admitted? ==>
            var p := outcome.plan;
            && p.consumer == FrameCharge(height, width, block)
            && (p.workers == requested || p.workers == depth
                || base + p.consumer + C.Times(p.workers + 1, p.worker) > budget))
      && (Sensible(depth, height, width, requested, block, budget) ==>
            (outcome.TooSmall? <==>
              || 256 * 1024 + 160 * depth > budget
              || base + FrameCharge(height, width, block) + WorkerCharge(height, width, block) > budget))
  {
    hide C.Times, C.ZlibExtra, C.Ceil, C.BatchBytes, C.BatchCells, C.Charge;
    if 0 < height && 0 < width && 1 <= block {
      C.CellIsPositive(height, width, block);
      ExtraIs(CellOf(height, width, block));
      if Sensible(depth, height, width, requested, block, budget) {
        var cell := CellOf(height, width, block);
        Charges(depth, requested, budget, FrameCharge(height, width, block), cell);
      }
    }
  }

  lemma {:induction false} Charges(depth: nat, requested: nat, budget: nat, frame: nat, cell: nat)
    requires cell > 0 && depth > 0 && requested > 0
    ensures var extra := C.ZlibExtra(cell);
            var batch := C.BatchBytes(C.BatchCells(cell), cell, extra);
            var worker := frame + 1024 * 1024 + 2 * cell + batch;
            var base := 256 * 1024 + 33 * depth;
            var outcome := C.Charge(depth, requested, budget, frame, C.BatchCells(cell), batch, cell, extra);
      && !outcome.Invalid?
      && (outcome.TooSmall? <==> 256 * 1024 + 160 * depth > budget || base + frame + worker > budget)
      && (outcome.Admitted? ==>
            && outcome.plan.consumer == frame && outcome.plan.worker == worker
            && (outcome.plan.workers == requested || outcome.plan.workers == depth
                || base + frame + C.Times(outcome.plan.workers + 1, worker) > budget))
  {
    hide C.ZlibExtra, C.BatchBytes, C.BatchCells, C.Times;
    var worker := frame + 1024 * 1024 + 2 * cell + C.BatchBytes(C.BatchCells(cell), cell, C.ZlibExtra(cell));
    var left := budget - 256 * 1024 - 33 * depth - frame;
    if left >= 0 {
      JustOver(left, worker);
      InItsSpan(worker, left / worker, left);
      FitsOne(left, worker);
    }
  }

  lemma {:induction false} FitsOne(left: nat, worker: nat)
    requires worker > 0
    ensures left / worker >= 1 <==> worker <= left
  {
    InItsSpan(worker, left / worker, left);
    if left / worker >= 1 {
      QuotientRises(worker, left, worker);
    }
  }
}
