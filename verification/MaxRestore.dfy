/** The direct form of the pooling: one plane restored chunk by chunk, offset by offset. */
module MaxRestore {
  import opened AxisRanges
  import opened MaxPool

  /** The pointwise maximum of frames `first` up to `stop`. */
  function FrameMax(source: nat -> Field, first: nat, stop: nat): Field
    decreases stop
  {
    if stop <= first then (y, x) => 0 else Either(FrameMax(source, first, stop - 1), source(stop - 1))
  }

  /** The source frames of output plane `z`, as the restoration picks them. */
  function RestoredFrames(src: nat, out: nat, z: nat): (nat, nat)
    requires src > 0 && z < out
  {
    if src >= out then
      Clipped(src, First(src, out, z), Stop(src, out, z))
    else
      var nearest := Confine(if src <= 1 then 0 else RoundHalfEven(z * (src - 1), out - 1), 0, src - 1);
      (nearest, nearest + 1)
  }

  /** Both forms read the same frames. */
  lemma {:induction false} SameFrames(src: nat, out: nat, z: nat)
    requires src > 0 && z < out
    ensures RestoredFrames(src, out, z) == SourceFrames(src, out, z)
  {
    if src >= out {
      hide First, Stop;
      FootprintsUnclipped(src, out, z);
    } else if src > 1 {
      NearestIsInside(src, out, z);
    } else {
      assert z * (src - 1) == 0;
    }
  }

  lemma {:induction false} NearestIsInside(src: nat, out: nat, z: nat)
    requires 1 < src < out && z < out
    ensures 0 <= RoundHalfEven(z * (src - 1), out - 1) <= src - 1
  {
    AxisRanges.Scale(z, out - 1, src - 1);
    Swapped(out - 1, src - 1);
    RoundedAtMost(z * (src - 1), out - 1, src - 1);
  }

  lemma {:induction false} Swapped(a: nat, b: nat)
    ensures a * b == b * a
  {
  }

  lemma {:induction false} RoundedAtMost(n: nat, d: nat, m: nat)
    requires d > 0 && n <= m * d
    ensures 0 <= RoundHalfEven(n, d) <= m
  {
    var q, r := n / d, n % d;
    assert n == q * d + r;
    if q > m {
      Next(m, q, d);
    } else if q == m {
      assert r == 0;
    }
  }

  // Flat positions

  /** The footprint of flat position `p`. */
  function FlatFootprint(k: MaxPool.Scale, p: nat): Box
    requires k.outH > 0 && k.outW > 0
  {
    Footprint(k, p / k.outW, p % k.outW)
  }

  function Size(k: MaxPool.Scale): nat {
    k.outH * k.outW
  }

  lemma {:induction false} PixelOf(outH: nat, outW: nat, p: nat)
    requires outW > 0 && p < outH * outW
    ensures p / outW < outH && p % outW < outW
  {
    FloorMeans(p, outW, p / outW);
    if p / outW >= outH {
      AxisRanges.Scale(outH, p / outW, outW);
    }
  }

  /** The flat position of a pixel. */
  lemma {:induction false} FlatOf(k: MaxPool.Scale, i: nat, j: nat) returns (p: nat)
    requires i < k.outH && j < k.outW
    ensures p == i * k.outW + j < Size(k) && p / k.outW == i && p % k.outW == j
  {
    p := i * k.outW + j;
    FloorMeans(p, k.outW, i);
    Next(i, k.outH, k.outW);
    assert p == (p / k.outW) * k.outW + p % k.outW;
  }

  lemma {:induction false} FlatOpens(k: MaxPool.Scale, p: nat)
    requires k.outH > 0 && k.outW > 0 && p < Size(k)
    ensures FlatFootprint(k, p).y0 < FlatFootprint(k, p).y1 && FlatFootprint(k, p).x0 < FlatFootprint(k, p).x1
  {
    PixelOf(k.outH, k.outW, p);
    AxisOpens(k.srcH, k.outH, Area(k), p / k.outW);
    AxisOpens(k.srcW, k.outW, Area(k), p % k.outW);
    hide AxisStart, AxisStop;
  }

  // One chunk

  /** The footprints of the chunk's positions, none of them empty. */
  ghost predicate Opened(boxes: seq<Box>) {
    forall i | 0 <= i < |boxes| :: boxes[i].y0 < boxes[i].y1 && boxes[i].x0 < boxes[i].x1
  }

  method Boxes(k: MaxPool.Scale, first: nat, stop: nat) returns (boxes: seq<Box>)
    requires k.outH > 0 && k.outW > 0 && first <= stop <= Size(k)
    ensures Opened(boxes) && |boxes| == stop - first
    ensures forall i | 0 <= i < |boxes| :: boxes[i] == FlatFootprint(k, first + i)
  {
    hide FlatFootprint;
    boxes := [];
    for p := first to stop
      invariant Opened(boxes) && |boxes| == p - first
      invariant forall i | 0 <= i < |boxes| :: boxes[i] == FlatFootprint(k, first + i)
    {
      FlatOpens(k, p);
      boxes := boxes + [FlatFootprint(k, p)];
    }
  }

  /** The tallest and the widest of the boxes. */
  method Extent(boxes: seq<Box>) returns (tall: nat, wide: nat)
    requires Opened(boxes)
    ensures forall i | 0 <= i < |boxes| :: boxes[i].y1 - boxes[i].y0 <= tall && boxes[i].x1 - boxes[i].x0 <= wide
  {
    tall, wide := 0, 0;
    for n := 0 to |boxes|
      invariant forall i | 0 <= i < n :: boxes[i].y1 - boxes[i].y0 <= tall && boxes[i].x1 - boxes[i].x0 <= wide
    {
      tall := if boxes[n].y1 - boxes[n].y0 > tall then boxes[n].y1 - boxes[n].y0 else tall;
      wide := if boxes[n].x1 - boxes[n].x0 > wide then boxes[n].x1 - boxes[n].x0 else wide;
    }
  }

  /** The rows of a box above offset `dy`, whole. */
  function RowsAbove(b: Box, dy: nat): Box {
    Box(b.y0, if b.y0 + dy < b.y1 then b.y0 + dy else b.y1, b.x0, b.x1)
  }

  /** The part of the row at offset `dy` before column offset `dx`; nothing below the box. */
  function RowBefore(b: Box, dy: nat, dx: nat): Box {
    if b.y0 + dy < b.y1 then Box(b.y0 + dy, b.y0 + dy + 1, b.x0, if b.x0 + dx < b.x1 then b.x0 + dx else b.x1)
    else Box(b.y1, b.y1, b.x0, b.x0)
  }

  /** How far one position has got: the frames before, the rows above and the row under way. */
  datatype Progress = Progress(frames: nat, rows: nat, row: nat)

  function Total(g: Progress): nat {
    Max(g.frames, Max(g.rows, g.row))
  }

  ghost predicate Follows(target: array<nat>, from: nat, boxes: seq<Box>, gs: seq<Progress>, before: Field, f: Field,
        dy: nat, dx: nat, n: nat)
    requires from + |boxes| <= target.Length && |gs| == |boxes|
    reads target
  {
    forall i | 0 <= i < |boxes| ::
      && target[from + i] == Total(gs[i])
      && Peak(gs[i].frames, before, boxes[i])
      && Peak(gs[i].rows, f, RowsAbove(boxes[i], dy))
      && Peak(gs[i].row, f, RowBefore(boxes[i], dy, if i < n then dx + 1 else dx))
  }

  /** The target outside the chunk. */
  twostate predicate SameOutside(target: array<nat>, from: nat, stop: nat)
    reads target
  {
    forall p | 0 <= p < target.Length && !(from <= p < stop) :: target[p] == old(target[p])
  }

  lemma {:induction false} RowGrows(v: nat, f: Field, b: Box, dy: nat, dx: nat)
    requires Peak(v, f, RowBefore(b, dy, dx)) && b.x0 < b.x1
    ensures b.y0 + dy < b.y1 && b.x0 + dx < b.x1 ==> Peak(Max(v, f(b.y0 + dy, b.x0 + dx)), f, RowBefore(b, dy, dx + 1))
    ensures !(b.y0 + dy < b.y1 && b.x0 + dx < b.x1) ==> Peak(v, f, RowBefore(b, dy, dx + 1))
  {
    hide Peak;
    if b.y0 + dy < b.y1 && b.x0 + dx < b.x1 {
      PeakWiden(v, f, b.y0 + dy, b.x0, b.x0 + dx);
    }
  }

  /** One column offset of one row offset: the maximum at the positions that are still inside. */
  method Column(target: array<nat>, from: nat, boxes: seq<Box>, f: Field, dy: nat, dx: nat, ghost gs: seq<Progress>,
        ghost before: Field)
    returns (ghost gs': seq<Progress>)
    requires from + |boxes| <= target.Length && Opened(boxes) && |gs| == |boxes|
    requires Follows(target, from, boxes, gs, before, f, dy, dx, 0)
    modifies target
    ensures |gs'| == |boxes| && Follows(target, from, boxes, gs', before, f, dy, dx + 1, 0)
    ensures SameOutside(target, from, from + |boxes|)
  {
    hide Peak, RowBefore, RowsAbove;
    gs' := gs;
    for n := 0 to |boxes|
      invariant |gs'| == |boxes| && Follows(target, from, boxes, gs', before, f, dy, dx, n)
      invariant SameOutside(target, from, from + |boxes|)
    {
      var b := boxes[n];
      RowGrows(gs'[n].row, f, b, dy, dx);
      if b.y0 + dy < b.y1 && b.x0 + dx < b.x1 {
        var score := f(b.y0 + dy, b.x0 + dx);
        target[from + n] := Max(target[from + n], score);
        gs' := gs'[n := gs'[n].(row := Max(gs'[n].row, score))];
      }
    }
  }

  /** A row that has been followed to its end joins the rows above. */
  function RowDone(g: Progress): Progress {
    Progress(g.frames, Max(g.rows, g.row), 0)
  }

  lemma {:induction false} RowEnds(g: Progress, f: Field, b: Box, dy: nat, wide: nat)
    requires Peak(g.rows, f, RowsAbove(b, dy)) && Peak(g.row, f, RowBefore(b, dy, wide))
    requires b.y0 < b.y1 && b.x0 < b.x1 && b.x1 - b.x0 <= wide
    ensures Peak(RowDone(g).rows, f, RowsAbove(b, dy + 1)) && Peak(RowDone(g).row, f, RowBefore(b, dy + 1, 0))
    ensures Total(RowDone(g)) == Total(g)
  {
    FlatPeak(f, RowBefore(b, dy + 1, 0));
    if b.y0 + dy < b.y1 {
      hide Peak;
      PeakTaller(g.rows, g.row, f, b, b.y0 + dy);
    }
  }

  /** One row offset. */
  method RowOffset(target: array<nat>, from: nat, boxes: seq<Box>, f: Field, dy: nat, wide: nat,
        ghost gs: seq<Progress>, ghost before: Field)
    returns (ghost gs': seq<Progress>)
    requires from + |boxes| <= target.Length && Opened(boxes) && |gs| == |boxes|
    requires forall i | 0 <= i < |boxes| :: boxes[i].x1 - boxes[i].x0 <= wide
    requires Follows(target, from, boxes, gs, before, f, dy, 0, 0)
    modifies target
    ensures |gs'| == |boxes| && Follows(target, from, boxes, gs', before, f, dy + 1, 0, 0)
    ensures SameOutside(target, from, from + |boxes|)
  {
    hide Peak, RowBefore, RowsAbove, Total, RowDone;
    gs' := gs;
    for dx := 0 to wide
      invariant |gs'| == |boxes| && Follows(target, from, boxes, gs', before, f, dy, dx, 0)
      invariant SameOutside(target, from, from + |boxes|)
    {
      gs' := Column(target, from, boxes, f, dy, dx, gs', before);
    }
    ghost var done := seq(|boxes|, i requires 0 <= i < |gs'| => RowDone(gs'[i]));
    forall i | 0 <= i < |boxes|
      ensures target[from + i] == Total(done[i]) && done[i].frames == gs'[i].frames
      ensures Peak(done[i].rows, f, RowsAbove(boxes[i], dy + 1)) && Peak(done[i].row, f, RowBefore(boxes[i], dy + 1, 0))
    {
      RowEnds(gs'[i], f, boxes[i], dy, wide);
      FramesStay(gs'[i]);
    }
    gs' := done;
  }

  lemma {:induction false} FramesStay(g: Progress)
    ensures RowDone(g).frames == g.frames
  {
  }

  /** One frame over the chunk. */
  method Frame(target: array<nat>, from: nat, boxes: seq<Box>, f: Field, tall: nat, wide: nat, ghost before: Field)
    requires from + |boxes| <= target.Length && Opened(boxes)
    requires forall i | 0 <= i < |boxes| :: boxes[i].y1 - boxes[i].y0 <= tall && boxes[i].x1 - boxes[i].x0 <= wide
    requires forall i | 0 <= i < |boxes| :: Peak(target[from + i], before, boxes[i])
    modifies target
    ensures forall i | 0 <= i < |boxes| :: Peak(target[from + i], Either(before, f), boxes[i])
    ensures SameOutside(target, from, from + |boxes|)
  {
    hide Peak, Either;
    ghost var gs := seq(|boxes|, i requires 0 <= i < |boxes|
        && from + |boxes| <= target.Length reads target => Progress(target[from + i], 0, 0));
    forall i | 0 <= i < |boxes|
      ensures Peak(gs[i].rows, f, RowsAbove(boxes[i], 0)) && Peak(gs[i].row, f, RowBefore(boxes[i], 0, 0))
    {
      FlatPeak(f, RowsAbove(boxes[i], 0));
      FlatPeak(f, RowBefore(boxes[i], 0, 0));
    }
    for dy := 0 to tall
      invariant |gs| == |boxes| && Follows(target, from, boxes, gs, before, f, dy, 0, 0)
      invariant SameOutside(target, from, from + |boxes|)
    {
      gs := RowOffset(target, from, boxes, f, dy, wide, gs, before);
    }
    forall i | 0 <= i < |boxes|
      ensures Peak(target[from + i], Either(before, f), boxes[i])
    {
      BoxEnds(gs[i], before, f, boxes[i], tall);
    }
  }

  lemma {:induction false} BoxEnds(g: Progress, before: Field, f: Field, b: Box, tall: nat)
    requires Peak(g.frames, before, b) && Peak(g.rows, f, RowsAbove(b, tall)) && Peak(g.row, f, RowBefore(b, tall, 0))
    requires b.y0 < b.y1 && b.y1 - b.y0 <= tall
    ensures Peak(Total(g), Either(before, f), b)
  {
    assert g.row == 0;
    assert RowsAbove(b, tall) == b;
    hide Peak, Either;
    PeakEither(g.frames, g.rows, before, f, b);
  }

  // The plane

  /** Restores one plane chunk by chunk over its flat positions, frame by frame and offset by offset. */
  method RestoreSlice(source: nat -> Field, k: MaxPool.Scale, srcT: nat, outT: nat, z: nat, chunk: nat)
        returns (flat: array<nat>)
    requires chunk > 0 && k.outH > 0 && k.outW > 0 && srcT > 0 && z < outT
    ensures fresh(flat) && flat.Length == Size(k)
    ensures var (first, stop) := SourceFrames(srcT, outT, z);
            Restored(k, source, first, stop, flat[..])
  {
    hide Peak, FlatFootprint, Footprint;
    flat := new nat[Size(k)](_ => 0);
    SameFrames(srcT, outT, z);
    var (lo, hi) := RestoredFrames(srcT, outT, z);
    hide RestoredFrames, SourceFrames;
    var first := 0;
    while first < flat.Length
      invariant first <= flat.Length == Size(k)
      invariant forall p: nat | p < first :: Peak(flat[p], FrameMax(source, lo, hi), FlatFootprint(k, p))
      invariant forall p: nat | first <= p < Size(k) :: flat[p] == 0
      decreases flat.Length - first
    {
      var stop := if first + chunk < flat.Length then first + chunk else flat.Length;
      RestoreChunk(flat, source, k, lo, hi, first, stop);
      first := stop;
    }
  }

  method RestoreChunk(flat: array<nat>, source: nat -> Field, k: MaxPool.Scale, lo: nat, hi: nat, first: nat, stop: nat)
    requires k.outH > 0 && k.outW > 0 && first <= stop <= flat.Length == Size(k)
    requires forall p: nat | first <= p < stop :: flat[p] == 0
    modifies flat
    ensures forall p: nat | first <= p < stop :: Peak(flat[p], FrameMax(source, lo, hi), FlatFootprint(k, p))
    ensures SameOutside(flat, first, stop)
  {
    hide Peak, FlatFootprint;
    var boxes := Boxes(k, first, stop);
    var tall, wide := Extent(boxes);
    forall i | 0 <= i < |boxes|
      ensures Peak(flat[first + i], FrameMax(source, lo, lo), boxes[i])
    {
      NoFrames(source, lo, boxes[i]);
    }
    var t := lo;
    while t < hi
      invariant lo <= t && (t <= hi || t == lo)
      invariant forall i | 0 <= i < |boxes| :: Peak(flat[first + i], FrameMax(source, lo, t), boxes[i])
      invariant SameOutside(flat, first, stop)
    {
      Frame(flat, first, boxes, source(t), tall, wide, FrameMax(source, lo, t));
      t := t + 1;
    }
    assert FrameMax(source, lo, t) == FrameMax(source, lo, hi);
    forall p: nat | first <= p < stop
      ensures Peak(flat[p], FrameMax(source, lo, hi), FlatFootprint(k, p))
    {
      assert Peak(flat[first + (p - first)], FrameMax(source, lo, hi), boxes[p - first]);
    }
  }

  lemma {:induction false} NoFrames(source: nat -> Field, lo: nat, b: Box)
    ensures Peak(0, FrameMax(source, lo, lo), b)
  {
  }

  // Both forms agree

  /** The crops of every frame hold its scores. */
  ghost predicate Holds(reader: nat -> seq<Crop>, source: nat -> Field, first: nat, stop: nat) {
    forall t: nat, y: int, x: int | first <= t < stop :: Fed(reader(t))(y, x) == source(t)(y, x)
  }

  function Flat(k: MaxPool.Scale, i: nat, j: nat): nat {
    i * k.outW + j
  }

  /** A flat plane that holds the direct form's maxima. */
  ghost predicate Restored(k: MaxPool.Scale, source: nat -> Field, first: nat, stop: nat, flat: seq<nat>)
    requires k.outH > 0 && k.outW > 0
  {
    |flat| == Size(k) && forall p: nat | p < |flat| :: Peak(flat[p], FrameMax(source, first, stop), FlatFootprint(k, p))
  }

  lemma {:induction false} SamePeak(k: MaxPool.Scale, reader: nat -> seq<Crop>, source: nat -> Field,
        first: nat, stop: nat, value: nat, flat: seq<nat>, i: nat, j: nat)
    requires i < k.outH && j < k.outW && Holds(reader, source, first, stop) && Restored(k, source, first, stop, flat)
    requires Peak(value, Fed(CropsOf(reader, first, stop)), Footprint(k, i, j))
    ensures Flat(k, i, j) < |flat| && value == flat[Flat(k, i, j)]
  {
    hide Peak, Footprint, Size, FrameMax, Fed, CropsOf;
    var p := FlatOf(k, i, j);
    forall y, x
      ensures FrameMax(source, first, stop)(y, x) == Fed(CropsOf(reader, first, stop))(y, x)
    {
      FedIsFrameMax(reader, source, first, stop, y, x);
    }
    PeakSame(flat[p], FrameMax(source, first, stop), Fed(CropsOf(reader, first, stop)), Footprint(k, i, j));
    PeakUnique(value, flat[p], Fed(CropsOf(reader, first, stop)), Footprint(k, i, j));
  }

  /** The two forms agree: what `CompactScorePlane` leaves is, at every pixel of its mask, what `RestoreSlice`
      leaves there, and zero off the mask, when the crops of every frame hold its scores. */
  lemma {:induction false} SeparableIsDirect(k: MaxPool.Scale, reader: nat -> seq<Crop>, source: nat -> Field,
        srcT: nat, outT: nat, z: nat, mask: array2<nat>, result: array2<nat>, flat: array<nat>)
    requires k.outH > 0 && k.outW > 0 && srcT > 0 && z < outT
    requires var (first, stop) := SourceFrames(srcT, outT, z);
      && Holds(reader, source, first, stop)
      && Compacted(k, reader, first, stop, mask, result) && Restored(k, source, first, stop, flat[..])
    ensures forall i: nat, j: nat | i < k.outH && j < k.outW ::
              Flat(k, i, j) < flat.Length && result[i, j] == if mask[i, j] == 0 then 0 else flat[Flat(k, i, j)]
  {
    hide Peak, Footprint, Size, Holds, Restored, Fed, CropsOf, SourceFrames, Flat;
    var (first, stop) := SourceFrames(srcT, outT, z);
    forall i: nat, j: nat | i < k.outH && j < k.outW
      ensures Flat(k, i, j) < flat.Length && result[i, j] == if mask[i, j] == 0 then 0 else flat[Flat(k, i, j)]
    {
      FlatInside(k, source, first, stop, flat[..], i, j);
      if mask[i, j] != 0 {
        SamePeak(k, reader, source, first, stop, result[i, j], flat[..], i, j);
      }
    }
  }

  lemma {:induction false} FlatInside(k: MaxPool.Scale, source: nat -> Field, first: nat, stop: nat, flat: seq<nat>,
        i: nat, j: nat)
    requires i < k.outH && j < k.outW && Restored(k, source, first, stop, flat)
    ensures Flat(k, i, j) < |flat|
  {
    hide Peak, FlatFootprint, FrameMax;
    var p := FlatOf(k, i, j);
  }

  lemma {:induction false} FedIsFrameMax(reader: nat -> seq<Crop>, source: nat -> Field, first: nat, stop: nat,
        y: int, x: int)
    requires forall t: nat | first <= t < stop :: Fed(reader(t))(y, x) == source(t)(y, x)
    ensures FrameMax(source, first, stop)(y, x) == Fed(CropsOf(reader, first, stop))(y, x)
    decreases stop
  {
    if first < stop {
      FedIsFrameMax(reader, source, first, stop - 1, y, x);
      FedJoin(CropsOf(reader, first, stop - 1), reader(stop - 1), y, x);
    }
  }

  lemma {:induction false} FedJoin(a: seq<Crop>, b: seq<Crop>, y: int, x: int)
    ensures Fed(a + b)(y, x) == Max(Fed(a)(y, x), Fed(b)(y, x))
    decreases |b|
  {
    if b == [] {
      assert a + b == a;
    } else {
      var init, last := b[..|b| - 1], b[|b| - 1];
      FedJoin(a, init, y, x);
      assert (a + b)[..|a + b| - 1] == a + init && (a + b)[|a + b| - 1] == last;
    }
  }
}
