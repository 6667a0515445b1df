/** Which source pixels and frames an output pixel stands for, and what both pooling forms leave there. */
module PoolFootprints {
  // The rows and columns are compared by their extents, scaled to a common length, so that nothing is divided.

  import opened AxisRanges
  import opened MaxPool
  import opened MaxRestore

  /** Row `y` of `src` and row `i` of `out` overlap when both axes are drawn to the same length. */
  predicate Overlaps(src: nat, out: nat, i: nat, y: int) {
    y * out < (i + 1) * src && i * src < (y + 1) * out
  }

  /** Row `i` of `out` starts within row `y` of `src`. */
  predicate StartsIn(src: nat, out: nat, i: nat, y: int) {
    y * out <= i * src < (y + 1) * out
  }

  /** The source pixels of an output pixel: all that overlap it when neither axis grows, and otherwise the one
      that it starts in. */
  predicate StandsFor(k: MaxPool.Scale, i: nat, j: nat, y: int, x: int) {
    if k.srcH >= k.outH && k.srcW >= k.outW
    then Overlaps(k.srcH, k.outH, i, y) && Overlaps(k.srcW, k.outW, j, x)
    else StartsIn(k.srcH, k.outH, i, y) && StartsIn(k.srcW, k.outW, j, x)
  }

  /** The source frames of an output plane: all that overlap it when time does not grow, and otherwise the one
      nearest to it with the ends of both axes aligned, the even one of two. */
  predicate FrameOf(src: nat, out: nat, z: nat, t: nat) {
    if src >= out then Overlaps(src, out, z, t)
    else
      var off := 2 * (t * (out - 1)) - 2 * (z * (src - 1));
      -(out - 1) <= off <= out - 1 && (off == out - 1 || off == -(out - 1) ==> t % 2 == 0)
  }

  // Axes

  lemma {:induction false} Ordered(a: int, c: int, b: nat)
    requires b > 0
    ensures a <= c <==> a * b <= c * b
    ensures a < c <==> a * b + b <= c * b
  {
    OneMore(a, b);
    OneMore(c, b);
    if a < c {
      Grows(a + 1, c, b);
    } else if c < a {
      Grows(c + 1, a, b);
    }
  }

  lemma {:induction false} OneMore(y: int, out: int)
    ensures (y + 1) * out == y * out + out
  {
  }

  lemma {:induction false} Grows(a: int, c: int, b: nat)
    requires a <= c
    ensures a * b <= c * b
    decreases c - a
  {
    if a < c {
      Grows(a, c - 1, b);
      OneMore(c - 1, b);
    }
  }

  lemma {:induction false} FloorAtMost(a: nat, out: nat, y: int)
    requires out > 0
    ensures Floor(a, out) <= y <==> a < (y + 1) * out
    ensures y <= Floor(a, out) <==> y * out <= a
  {
    var f := Floor(a, out);
    FloorMeans(a, out, f);
    OneMore(y, out);
    OneMore(f, out);
    Ordered(f, y, out);
    Ordered(y, f, out);
  }

  lemma {:induction false} CeilAbove(a: nat, out: nat, y: int)
    requires out > 0
    ensures y < Ceil(a, out) <==> y * out < a
  {
    var c := Ceil(a, out);
    CeilMeans(a, out, c);
    Ordered(y, c, out);
    Ordered(c, y, out);
  }

  lemma {:induction false} AxisOverlaps(src: nat, out: nat, i: nat, y: int)
    requires out > 0
    ensures AxisStart(src, out, i) <= y < AxisStop(src, out, true, i) <==> Overlaps(src, out, i, y)
    ensures AxisStart(src, out, i) <= y < AxisStop(src, out, false, i) <==> StartsIn(src, out, i, y)
  {
    FloorAtMost(i * src, out, y);
    CeilAbove((i + 1) * src, out, y);
  }

  /** The footprint is made of exactly those pixels. */
  lemma {:induction false} FootprintIs(k: MaxPool.Scale, i: nat, j: nat, y: int, x: int)
    requires k.outH > 0 && k.outW > 0
    ensures Inside(Footprint(k, i, j), y, x) <==> StandsFor(k, i, j, y, x)
  {
    AxisOverlaps(k.srcH, k.outH, i, y);
    AxisOverlaps(k.srcW, k.outW, j, x);
    hide Overlaps, StartsIn, AxisStart, AxisStop;
  }

  /** The nearest multiple of `d`, from the one below, when `td` and `qd` stand for the multiples. */
  lemma {:induction false} Nearest(d: int, q: int, r: int, t: int, qd: int, td: int)
    requires 0 <= r < d && (t == q ==> td == qd) && (t == q + 1 ==> td == qd + d)
    requires (t < q ==> td + d <= qd) && (q + 1 < t ==> qd + 2 * d <= td)
    ensures var off, rounded := 2 * td - 2 * (qd + r), if 2 * r < d || (2 * r == d && q % 2 == 0) then q else q + 1;
      t == rounded <==> -d <= off <= d && (off == d || off == -d ==> t % 2 == 0)
  {
  }

  lemma {:induction false} NearestIs(n: nat, d: int, t: int)
    requires d > 0
    ensures var off := 2 * (t * d) - 2 * n;
      t == RoundHalfEven(n, d) <==> -d <= off <= d && (off == d || off == -d ==> t % 2 == 0)
  {
    var q, r := n / d, n % d;
    assert n == q * d + r;
    OneMore(q, d);
    Ordered(t, q, d);
    Ordered(q + 1, t, d);
    Nearest(d, q, r, t, q * d, t * d);
  }

  lemma {:induction false} FramesAre(src: nat, out: nat, z: nat, t: nat)
    requires src > 0 && z < out
    ensures var (first, stop) := SourceFrames(src, out, z);
      first <= t < stop <==> FrameOf(src, out, z, t)
  {
    if src >= out {
      AxisOverlaps(src, out, z, t);
      hide Overlaps, First, Stop;
    } else {
      NearestIs(z * (src - 1), out - 1, t);
      RoundsUpward(z * (src - 1), out - 1);
    }
  }

  lemma {:induction false} RoundsUpward(n: nat, d: nat)
    requires d > 0
    ensures RoundHalfEven(n, d) >= 0
  {
    assert n / d >= 0;
  }

  // What the separable form leaves

  lemma {:induction false} InCrops(reader: nat -> seq<Crop>, first: nat, stop: nat, c: Crop)
    ensures c in CropsOf(reader, first, stop) <==> exists t: nat :: first <= t < stop && c in reader(t)
    decreases stop
  {
    if first < stop {
      InCrops(reader, first, stop - 1, c);
      if t: nat :| first <= t < stop && c in reader(t) {
        assert t < stop - 1 || t == stop - 1;
      }
    }
  }

  /** The score was captured in a frame and at a pixel that the output pixel stands for. */
  ghost predicate Captured(k: MaxPool.Scale, reader: nat -> seq<Crop>, srcT: nat, outT: nat, z: nat, i: nat, j: nat,
        c: Crop, t: nat, y: int, x: int) {
    FrameOf(srcT, outT, z, t) && c in reader(t) && StandsFor(k, i, j, y, x)
  }

  /** On the mask every pixel is at least each captured score that it stands for, and equals one of them unless
      it is zero; off the mask it is zero. */
  lemma {:induction false} CompactedPixel(k: MaxPool.Scale, reader: nat -> seq<Crop>, srcT: nat, outT: nat, z: nat,
        mask: array2<nat>, result: array2<nat>, i: nat, j: nat)
    requires k.outH > 0 && k.outW > 0 && srcT > 0 && z < outT && i < k.outH && j < k.outW
    requires var (first, stop) := SourceFrames(srcT, outT, z); Compacted(k, reader, first, stop, mask, result)
    ensures mask[i, j] == 0 ==> result[i, j] == 0
    ensures mask[i, j] != 0 ==>
      && (forall c, t: nat, y, x | Captured(k, reader, srcT, outT, z, i, j, c, t, y, x) ::
            c.score(y, x) <= result[i, j])
      && (result[i, j] == 0 || exists c, t: nat, y, x ::
            Captured(k, reader, srcT, outT, z, i, j, c, t, y, x) && c.score(y, x) == result[i, j])
  {
    var (first, stop) := SourceFrames(srcT, outT, z);
    if mask[i, j] != 0 {
      var v := result[i, j];
      assert Peak(v, Fed(CropsOf(reader, first, stop)), Footprint(k, i, j));
      hide CropsOf, Footprint, SourceFrames, StandsFor, FrameOf, Fed;
      forall c, t: nat, y, x | Captured(k, reader, srcT, outT, z, i, j, c, t, y, x)
        ensures c.score(y, x) <= v
      {
        FramesAre(srcT, outT, z, t);
        FootprintIs(k, i, j, y, x);
        InCrops(reader, first, stop, c);
        FedIsLargest(CropsOf(reader, first, stop), y, x);
      }
      if v != 0 {
        var y, x :| Inside(Footprint(k, i, j), y, x) && Fed(CropsOf(reader, first, stop))(y, x) == v;
        FedIsLargest(CropsOf(reader, first, stop), y, x);
        var c :| c in CropsOf(reader, first, stop) && c.score(y, x) == v;
        InCrops(reader, first, stop, c);
        var t: nat :| first <= t < stop && c in reader(t);
        FramesAre(srcT, outT, z, t);
        FootprintIs(k, i, j, y, x);
        assert Captured(k, reader, srcT, outT, z, i, j, c, t, y, x) && c.score(y, x) == v;
      }
    }
  }

  // What the direct form leaves

  lemma {:induction false} FrameMaxIsLargest(source: nat -> Field, first: nat, stop: nat, y: int, x: int)
    ensures forall t: nat | first <= t < stop :: source(t)(y, x) <= FrameMax(source, first, stop)(y, x)
    ensures FrameMax(source, first, stop)(y, x) == 0
         || exists t: nat :: first <= t < stop && source(t)(y, x) == FrameMax(source, first, stop)(y, x)
    decreases stop
  {
    if first < stop {
      FrameMaxIsLargest(source, first, stop - 1, y, x);
      assert FrameMax(source, first, stop)(y, x)
          == Max(FrameMax(source, first, stop - 1)(y, x), source(stop - 1)(y, x));
    }
  }

  /** The frame and the pixel are ones that the output pixel stands for. */
  ghost predicate Seen(k: MaxPool.Scale, srcT: nat, outT: nat, z: nat, i: nat, j: nat, t: nat, y: int, x: int) {
    FrameOf(srcT, outT, z, t) && StandsFor(k, i, j, y, x)
  }

  lemma {:induction false} RestoredAt(k: MaxPool.Scale, source: nat -> Field, first: nat, stop: nat, flat: seq<nat>,
        i: nat, j: nat)
    requires i < k.outH && j < k.outW && Restored(k, source, first, stop, flat)
    ensures 0 <= i * k.outW + j < |flat| == k.outH * k.outW
    ensures Peak(flat[i * k.outW + j], FrameMax(source, first, stop), Footprint(k, i, j))
  {
    hide Peak, Footprint, FrameMax;
    var p := FlatOf(k, i, j);
  }

  /** Every pixel of the restored plane, at its row-major place, is at least each source score that it stands
      for, and equals one of them unless it is zero. */
  lemma {:induction false} RestoredPixel(k: MaxPool.Scale, source: nat -> Field, srcT: nat, outT: nat, z: nat,
        flat: seq<nat>, i: nat, j: nat)
    requires k.outH > 0 && k.outW > 0 && srcT > 0 && z < outT && i < k.outH && j < k.outW
    requires var (first, stop) := SourceFrames(srcT, outT, z); Restored(k, source, first, stop, flat)
    ensures 0 <= i * k.outW + j < |flat| == k.outH * k.outW
    ensures var v := flat[i * k.outW + j];
      && (forall t: nat, y, x | Seen(k, srcT, outT, z, i, j, t, y, x) :: source(t)(y, x) <= v)
      && (v == 0 || exists t: nat, y, x :: Seen(k, srcT, outT, z, i, j, t, y, x) && source(t)(y, x) == v)
  {
    hide FrameMax, Footprint, SourceFrames, StandsFor, FrameOf, Restored;
    var (first, stop) := SourceFrames(srcT, outT, z);
    RestoredAt(k, source, first, stop, flat, i, j);
    var v := flat[i * k.outW + j];
    forall t: nat, y, x | Seen(k, srcT, outT, z, i, j, t, y, x)
      ensures source(t)(y, x) <= v
    {
      FramesAre(srcT, outT, z, t);
      FootprintIs(k, i, j, y, x);
      FrameMaxIsLargest(source, first, stop, y, x);
    }
    if v != 0 {
      var y, x :| Inside(Footprint(k, i, j), y, x) && FrameMax(source, first, stop)(y, x) == v;
      FrameMaxIsLargest(source, first, stop, y, x);
      var t: nat :| first <= t < stop && source(t)(y, x) == v;
      FramesAre(srcT, outT, z, t);
      FootprintIs(k, i, j, y, x);
      assert Seen(k, srcT, outT, z, i, j, t, y, x) && source(t)(y, x) == v;
    }
  }
}
