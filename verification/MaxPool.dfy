/** Exact maximum pooling of score crops into output footprints. */
module MaxPool {
  import opened AxisRanges
  import opened Options

  type Field = (int, int) -> nat

  datatype Box = Box(y0: int, y1: int, x0: int, x1: int)

  predicate Inside(b: Box, y: int, x: int) {
    b.y0 <= y < b.y1 && b.x0 <= x < b.x1
  }

  /** `v` is the maximum of the field over the box, zero when the box is empty. */
  ghost predicate Peak(v: nat, f: Field, b: Box) {
    && (forall y, x | Inside(b, y, x) :: f(y, x) <= v)
    && (v == 0 || exists y, x :: Inside(b, y, x) && f(y, x) == v)
  }

  lemma {:induction false} PeakUnique(v: nat, w: nat, f: Field, b: Box)
    requires Peak(v, f, b) && Peak(w, f, b)
    ensures v == w
  {
  }

  function Max(a: nat, b: nat): nat {
    if a >= b then a else b
  }

  function Either(f: Field, g: Field): Field {
    (y, x) => Max(f(y, x), g(y, x))
  }

  /** Pooling two fields apart and taking the larger is pooling their pointwise maximum. */
  lemma {:induction false} PeakEither(v: nat, w: nat, f: Field, g: Field, b: Box)
    requires Peak(v, f, b) && Peak(w, g, b)
    ensures Peak(Max(v, w), Either(f, g), b)
  {
    if Max(v, w) != 0 {
      if v >= w {
        var y, x :| Inside(b, y, x) && f(y, x) == v;
        assert Either(f, g)(y, x) == v;
      } else {
        var y, x :| Inside(b, y, x) && g(y, x) == w;
        assert Either(f, g)(y, x) == w;
      }
    }
  }

  // Footprints

  function AxisStart(src: nat, out: nat, i: nat): nat
    requires out > 0
  {
    First(src, out, i)
  }

  function AxisStop(src: nat, out: nat, area: bool, i: nat): nat
    requires out > 0
  {
    if area then Stop(src, out, i) else First(src, out, i) + 1
  }

  datatype Scale = Scale(srcH: nat, srcW: nat, outH: nat, outW: nat)

  predicate Area(k: Scale) {
    k.srcH >= k.outH && k.srcW >= k.outW
  }

  /** The source box that output pixel (`i`, `j`) stands for. */
  function Footprint(k: Scale, i: nat, j: nat): Box
    requires k.outH > 0 && k.outW > 0
  {
    Box(AxisStart(k.srcH, k.outH, i), AxisStop(k.srcH, k.outH, Area(k), i),
        AxisStart(k.srcW, k.outW, j), AxisStop(k.srcW, k.outW, Area(k), j))
  }

  /** When the output is no larger on either axis, every source pixel is in some footprint. */
  lemma {:induction false} FootprintsHoldAll(k: Scale, y: nat, x: nat) returns (i: nat, j: nat)
    requires 0 < k.outH <= k.srcH && 0 < k.outW <= k.srcW && y < k.srcH && x < k.srcW
    ensures i < k.outH && j < k.outW && Inside(Footprint(k, i, j), y, x)
  {
    i := FootprintsCover(k.srcH, k.outH, y);
    j := FootprintsCover(k.srcW, k.outW, x);
  }

  // One crop

  /** A crop: its box and its scores, nothing outside. */
  datatype Crop = Crop(box: Box, score: Field)

  ghost predicate Within(c: Crop) {
    forall y, x | c.score(y, x) != 0 :: Inside(c.box, y, x)
  }

  predicate ValidCrop(k: Scale, c: Crop) {
    0 <= c.box.y0 <= c.box.y1 <= k.srcH && 0 <= c.box.x0 <= c.box.x1 <= k.srcW
  }

  function Clip(a: Box, b: Box): Box {
    Box(if a.y0 > b.y0 then a.y0 else b.y0, if a.y1 < b.y1 then a.y1 else b.y1,
        if a.x0 > b.x0 then a.x0 else b.x0, if a.x1 < b.x1 then a.x1 else b.x1)
  }

  /** Only the part of a footprint under the crop matters. */
  lemma {:induction false} PeakClipped(v: nat, c: Crop, b: Box)
    requires Within(c) && Peak(v, c.score, Clip(b, c.box))
    ensures Peak(v, c.score, b)
  {
    forall y, x | Inside(b, y, x)
      ensures c.score(y, x) <= v
    {
      if c.score(y, x) != 0 {
        assert Inside(Clip(b, c.box), y, x);
      }
    }
    if v != 0 {
      var y, x :| Inside(Clip(b, c.box), y, x) && c.score(y, x) == v;
      assert Inside(b, y, x);
    }
  }

  lemma {:induction false} PeakWiden(v: nat, f: Field, y: int, x0: int, x: int)
    requires Peak(v, f, Box(y, y + 1, x0, x)) && x0 <= x
    ensures Peak(Max(v, f(y, x)), f, Box(y, y + 1, x0, x + 1))
  {
    var b := Box(y, y + 1, x0, x + 1);
    assert Inside(b, y, x);
    if v > f(y, x) {
      var u, t :| Inside(Box(y, y + 1, x0, x), u, t) && f(u, t) == v;
      assert Inside(b, u, t);
    }
  }

  lemma {:induction false} PeakTaller(v: nat, w: nat, f: Field, b: Box, y: int)
    requires Peak(v, f, Box(b.y0, y, b.x0, b.x1)) && Peak(w, f, Box(y, y + 1, b.x0, b.x1)) && b.y0 <= y
    ensures Peak(Max(v, w), f, Box(b.y0, y + 1, b.x0, b.x1))
  {
    var whole := Box(b.y0, y + 1, b.x0, b.x1);
    forall u, t | Inside(whole, u, t)
      ensures f(u, t) <= Max(v, w)
    {
      assert Inside(Box(b.y0, y, b.x0, b.x1), u, t) || Inside(Box(y, y + 1, b.x0, b.x1), u, t);
    }
    if Max(v, w) != 0 {
      if v >= w {
        var u, t :| Inside(Box(b.y0, y, b.x0, b.x1), u, t) && f(u, t) == v;
        assert Inside(whole, u, t);
      } else {
        var u, t :| Inside(Box(y, y + 1, b.x0, b.x1), u, t) && f(u, t) == w;
        assert Inside(whole, u, t);
      }
    }
  }

  lemma {:induction false} FlatPeak(f: Field, b: Box)
    requires b.y1 <= b.y0 || b.x1 <= b.x0
    ensures Peak(0, f, b)
  {
  }

  // The parts of the axes under a crop

  /** The footprint of `i` on an axis meets `lo..hi`. */
  predicate Meets(src: nat, out: nat, area: bool, i: nat, lo: int, hi: int)
    requires out > 0
  {
    AxisStart(src, out, i) < hi && AxisStop(src, out, area, i) > lo
  }

  /** `picks` are the outputs whose footprints meet `lo..hi`, in order. */
  ghost predicate Picked(picks: seq<nat>, src: nat, out: nat, area: bool, lo: int, hi: int, n: nat)
    requires out > 0
  {
    && (forall a | 0 <= a < |picks| :: picks[a] < n && Meets(src, out, area, picks[a], lo, hi))
    && (forall a, b | 0 <= a < b < |picks| :: picks[a] < picks[b])
    && (forall i: nat | i < n && Meets(src, out, area, i, lo, hi) :: i in picks)
  }

  method Pick(src: nat, out: nat, area: bool, lo: int, hi: int) returns (picks: seq<nat>)
    requires out > 0
    ensures Picked(picks, src, out, area, lo, hi, out)
  {
    hide Meets;
    picks := [];
    for i := 0 to out
      invariant Picked(picks, src, out, area, lo, hi, i)
    {
      if Meets(src, out, area, i, lo, hi) {
        picks := picks + [i];
      }
    }
  }

  /** The clipped footprints of the picks, counted from `lo`: never empty, and inside the crop. */
  ghost predicate Spanned(starts: seq<nat>, ends: seq<nat>, picks: seq<nat>, src: nat, out: nat, area: bool, lo: int,
        hi: int)
    requires out > 0
  {
    && |starts| == |ends| == |picks|
    && forall a | 0 <= a < |picks| ::
         && starts[a] < ends[a] <= hi - lo
         && lo + starts[a] == (if AxisStart(src, out, picks[a]) > lo then AxisStart(src, out, picks[a]) else lo)
         && lo + ends[a] == (if AxisStop(src, out, area, picks[a]) < hi then AxisStop(src, out, area, picks[a]) else hi)
  }

  method Spans(picks: seq<nat>, src: nat, out: nat, area: bool, lo: int, hi: int)
        returns (starts: seq<nat>, ends: seq<nat>)
    requires out > 0 && lo < hi && (area ==> src >= out) && Picked(picks, src, out, area, lo, hi, out)
    ensures Spanned(starts, ends, picks, src, out, area, lo, hi)
  {
    hide AxisStart, AxisStop;
    starts, ends := [], [];
    for a := 0 to |picks|
      invariant Spanned(starts, ends, picks[..a], src, out, area, lo, hi)
    {
      AxisOpens(src, out, area, picks[a]);
      var first, stop := AxisStart(src, out, picks[a]), AxisStop(src, out, area, picks[a]);
      starts := starts + [(if first > lo then first else lo) - lo];
      ends := ends + [(if stop < hi then stop else hi) - lo];
      assert picks[..a + 1] == picks[..a] + [picks[a]];
    }
    assert picks[..|picks|] == picks;
  }

  lemma {:induction false} AxisOpens(src: nat, out: nat, area: bool, i: nat)
    requires out > 0 && i < out && (area ==> src >= out)
    ensures AxisStart(src, out, i) < AxisStop(src, out, area, i)
  {
    if area {
      FootprintsAdvance(src, out, i);
    }
  }

  /** The longest of the ranges. */
  method Longest(starts: seq<nat>, ends: seq<nat>) returns (most: nat)
    requires |starts| == |ends| && forall a | 0 <= a < |starts| :: starts[a] <= ends[a]
    ensures forall a | 0 <= a < |starts| :: ends[a] - starts[a] <= most
  {
    most := 0;
    for a := 0 to |starts|
      invariant forall b | 0 <= b < a :: ends[b] - starts[b] <= most
    {
      if ends[a] - starts[a] > most {
        most := ends[a] - starts[a];
      }
    }
  }

  /** How far a range has been followed after `offset` steps. */
  function Reach(start: nat, end: nat, offset: nat): nat {
    if start + offset < end then start + offset else end
  }

  /** The strip of one crop row under the first `offset` columns of a range. */
  function RowStrip(c: Crop, row: nat, start: nat, stop: nat): Box {
    Box(c.box.y0 + row, c.box.y0 + row + 1, c.box.x0 + start, c.box.x0 + stop)
  }

  ghost predicate HorizontalUpTo(horizontal: array2<nat>, c: Crop, starts: seq<nat>, ends: seq<nat>, offset: nat,
        q: nat)
    requires |starts| == |ends| == horizontal.Length1
    reads horizontal
  {
    forall r: nat, a: nat | r < horizontal.Length0 && a < |starts| ::
      Peak(horizontal[r, a], c.score,
           RowStrip(c, r, starts[a], Reach(starts[a], ends[a], if a < q then offset + 1 else offset)))
  }

  /** The horizontal pass: offset by offset, for every column still within its range, over all crop rows. */
  method Horizontal(c: Crop, starts: seq<nat>, ends: seq<nat>) returns (horizontal: array2<nat>)
    requires c.box.y0 <= c.box.y1 && |starts| == |ends| && forall a | 0 <= a < |starts| :: starts[a] < ends[a]
    ensures fresh(horizontal) && horizontal.Length0 == c.box.y1 - c.box.y0 && horizontal.Length1 == |starts|
    ensures forall r: nat, a: nat | r < horizontal.Length0 && a < |starts| ::
              Peak(horizontal[r, a], c.score, RowStrip(c, r, starts[a], ends[a]))
  {
    hide Peak;
    horizontal := new nat[c.box.y1 - c.box.y0, |starts|]((i, j) => 0);
    forall r: nat, a: nat | r < horizontal.Length0 && a < |starts|
      ensures Peak(horizontal[r, a], c.score, RowStrip(c, r, starts[a], starts[a]))
    {
      FlatPeak(c.score, RowStrip(c, r, starts[a], starts[a]));
    }
    var most := Longest(starts, ends);
    for offset := 0 to most
      invariant HorizontalUpTo(horizontal, c, starts, ends, offset, 0)
    {
      for q := 0 to |starts|
        invariant HorizontalUpTo(horizontal, c, starts, ends, offset, q)
      {
        if starts[q] + offset < ends[q] {
          HorizontalColumn(horizontal, c, starts, ends, offset, q);
        }
      }
    }
  }

  /** One active column of the horizontal pass. */
  method HorizontalColumn(horizontal: array2<nat>, c: Crop, starts: seq<nat>, ends: seq<nat>, offset: nat, q: nat)
    requires |starts| == |ends| == horizontal.Length1 && q < |starts| && starts[q] + offset < ends[q]
    requires HorizontalUpTo(horizontal, c, starts, ends, offset, q)
    modifies horizontal
    ensures HorizontalUpTo(horizontal, c, starts, ends, offset, q + 1)
  {
    hide Peak;
    var x := c.box.x0 + starts[q] + offset;
    for r := 0 to horizontal.Length0
      invariant forall i: nat, a: nat | i < horizontal.Length0 && a < |starts| ::
        Peak(horizontal[i, a], c.score,
             RowStrip(c, i, starts[a],
                      Reach(starts[a], ends[a], if a < q || (a == q && i < r) then offset + 1 else offset)))
    {
      PeakWiden(horizontal[r, q], c.score, c.box.y0 + r, c.box.x0 + starts[q], x);
      horizontal[r, q] := Max(horizontal[r, q], c.score(c.box.y0 + r, x));
    }
  }

  /** The part of a footprint under the crop: rows `y0..y1` and columns `x0..x1` counted from the crop's corner. */
  function Patch(c: Crop, y0: nat, y1: nat, x0: nat, x1: nat): Box {
    Box(c.box.y0 + y0, c.box.y0 + y1, c.box.x0 + x0, c.box.x0 + x1)
  }

  ghost predicate VerticalUpTo(reduced: array2<nat>, c: Crop, ys: seq<nat>, ye: seq<nat>, xs: seq<nat>, xe: seq<nat>,
        offset: nat, p: nat)
    requires |ys| == |ye| == reduced.Length0 && |xs| == |xe| == reduced.Length1
    reads reduced
  {
    forall a: nat, q: nat | a < |ys| && q < |xs| ::
      Peak(reduced[a, q], c.score,
           Patch(c, ys[a], Reach(ys[a], ye[a], if a < p then offset + 1 else offset), xs[q], xe[q]))
  }

  /** The vertical pass over the results of the horizontal one. */
  method Vertical(c: Crop, horizontal: array2<nat>, ys: seq<nat>, ye: seq<nat>, xs: seq<nat>, xe: seq<nat>)
    returns (reduced: array2<nat>)
    requires |ys| == |ye| && forall a | 0 <= a < |ys| :: ys[a] < ye[a] <= horizontal.Length0
    requires horizontal.Length1 == |xs| == |xe|
    requires forall r: nat, a: nat | r < horizontal.Length0 && a < |xs| ::
               Peak(horizontal[r, a], c.score, RowStrip(c, r, xs[a], xe[a]))
    ensures fresh(reduced) && reduced.Length0 == |ys| && reduced.Length1 == |xs|
    ensures forall a: nat, q: nat | a < |ys| && q < |xs| ::
              Peak(reduced[a, q], c.score, Patch(c, ys[a], ye[a], xs[q], xe[q]))
  {
    hide Peak;
    reduced := new nat[|ys|, |xs|]((i, j) => 0);
    forall a: nat, q: nat | a < |ys| && q < |xs|
      ensures Peak(reduced[a, q], c.score, Patch(c, ys[a], ys[a], xs[q], xe[q]))
    {
      FlatPeak(c.score, Patch(c, ys[a], ys[a], xs[q], xe[q]));
    }
    var most := Longest(ys, ye);
    for offset := 0 to most
      invariant VerticalUpTo(reduced, c, ys, ye, xs, xe, offset, 0)
    {
      for p := 0 to |ys|
        invariant VerticalUpTo(reduced, c, ys, ye, xs, xe, offset, p)
      {
        if ys[p] + offset < ye[p] {
          VerticalRow(c, horizontal, reduced, ys, ye, xs, xe, offset, p);
        }
      }
    }
  }

  /** One active row of the vertical pass. */
  method VerticalRow(c: Crop, horizontal: array2<nat>, reduced: array2<nat>, ys: seq<nat>, ye: seq<nat>, xs: seq<nat>,
        xe: seq<nat>, offset: nat, p: nat)
    requires reduced != horizontal
    requires |ys| == |ye| == reduced.Length0 && |xs| == |xe| == reduced.Length1 == horizontal.Length1
    requires p < |ys| && ys[p] + offset < ye[p] <= horizontal.Length0
    requires forall r: nat, a: nat | r < horizontal.Length0 && a < |xs| ::
               Peak(horizontal[r, a], c.score, RowStrip(c, r, xs[a], xe[a]))
    requires VerticalUpTo(reduced, c, ys, ye, xs, xe, offset, p)
    modifies reduced
    ensures VerticalUpTo(reduced, c, ys, ye, xs, xe, offset, p + 1)
  {
    hide Peak;
    var r := ys[p] + offset;
    for q := 0 to |xs|
      invariant forall a: nat, b: nat | a < |ys| && b < |xs| ::
        Peak(reduced[a, b], c.score,
             Patch(c, ys[a], Reach(ys[a], ye[a], if a < p || (a == p && b < q) then offset + 1 else offset),
                   xs[b], xe[b]))
    {
      PeakTaller(reduced[p, q], horizontal[r, q], c.score, Patch(c, ys[p], ye[p], xs[q], xe[q]), c.box.y0 + r);
      reduced[p, q] := Max(reduced[p, q], horizontal[r, q]);
    }
  }

  // One crop into the output

  /** Every output pixel is the maximum of the field over its footprint. */
  ghost predicate Pooled(output: array2<nat>, k: Scale, f: Field)
    reads output
  {
    && output.Length0 == k.outH && output.Length1 == k.outW && k.outH > 0 && k.outW > 0
    && forall i, j | 0 <= i < k.outH && 0 <= j < k.outW :: Peak(output[i, j], f, Footprint(k, i, j))
  }

  /** A pixel whose footprint misses the crop pools nothing from it. */
  lemma {:induction false} MissedPools(v: nat, k: Scale, c: Crop, before: Field, i: nat, j: nat)
    requires k.outH > 0 && k.outW > 0 && Within(c) && Peak(v, before, Footprint(k, i, j))
    requires !Meets(k.srcH, k.outH, Area(k), i, c.box.y0, c.box.y1)
             || !Meets(k.srcW, k.outW, Area(k), j, c.box.x0, c.box.x1)
          || c.box.y1 <= c.box.y0 || c.box.x1 <= c.box.x0
    ensures Peak(v, Either(before, c.score), Footprint(k, i, j))
  {
    var clipped := Clip(Footprint(k, i, j), c.box);
    hide AxisStart, AxisStop, Peak;
    FlatPeak(c.score, clipped);
    PeakClipped(0, c, Footprint(k, i, j));
    PeakEither(v, 0, before, c.score, Footprint(k, i, j));
  }

  /** A pixel whose footprint meets the crop takes the maximum of the part under the crop. */
  lemma {:induction false} MetPools(v: nat, w: nat, k: Scale, c: Crop, before: Field, i: nat, j: nat, part: Box)
    requires k.outH > 0 && k.outW > 0 && Within(c) && Peak(v, before, Footprint(k, i, j))
    requires part == Clip(Footprint(k, i, j), c.box) && Peak(w, c.score, part)
    ensures Peak(Max(v, w), Either(before, c.score), Footprint(k, i, j))
  {
    hide Peak, Footprint;
    PeakClipped(w, c, Footprint(k, i, j));
    PeakEither(v, w, before, c.score, Footprint(k, i, j));
  }

  /** The output after the rows before `a` of the selection and the columns before `q` of row `a`. */
  ghost predicate WrittenUpTo(output: array2<nat>, k: Scale, c: Crop, before: Field, oy: seq<nat>, ox: seq<nat>,
        a: nat, q: nat)
    requires k.outH > 0 && k.outW > 0 && a <= |oy| && q <= |ox|
    requires output.Length0 == k.outH && output.Length1 == k.outW
    reads output
  {
    forall i: nat, j: nat | i < k.outH && j < k.outW ::
      Peak(output[i, j],
           if (a < |oy| && i in oy[a + 1..] && j in ox) || (a < |oy| && i == oy[a] && j in ox[q..]) then before
           else Either(before, c.score),
           Footprint(k, i, j))
  }

  /** Nothing is written yet: every pixel outside the selection is right already. */
  lemma {:induction false} NothingWritten(output: array2<nat>, k: Scale, c: Crop, before: Field, oy: seq<nat>,
        ox: seq<nat>)
    requires Within(c) && Pooled(output, k, before)
    requires Picked(oy, k.srcH, k.outH, Area(k), c.box.y0, c.box.y1, k.outH)
    requires Picked(ox, k.srcW, k.outW, Area(k), c.box.x0, c.box.x1, k.outW)
    ensures WrittenUpTo(output, k, c, before, oy, ox, 0, 0)
  {
    hide Peak, Footprint, Meets, Either;
    assert ox[0..] == ox;
    assert forall i | i in oy :: 0 < |oy| && (i == oy[0] || i in oy[1..]);
    forall i: nat, j: nat | i < k.outH && j < k.outW && !(i in oy && j in ox)
      ensures Peak(output[i, j], Either(before, c.score), Footprint(k, i, j))
    {
      MissedPools(output[i, j], k, c, before, i, j);
    }
  }

  /** The maximum of the output and the reduced crop, over the selected rows and columns. */
  method WriteSelection(output: array2<nat>, k: Scale, c: Crop, reduced: array2<nat>, oy: seq<nat>, ox: seq<nat>,
                        ys: seq<nat>, ye: seq<nat>, xs: seq<nat>, xe: seq<nat>, ghost before: Field)
    requires output != reduced && Within(c) && Pooled(output, k, before)
    requires Picked(oy, k.srcH, k.outH, Area(k), c.box.y0, c.box.y1, k.outH)
    requires Picked(ox, k.srcW, k.outW, Area(k), c.box.x0, c.box.x1, k.outW)
    requires Spanned(ys, ye, oy, k.srcH, k.outH, Area(k), c.box.y0, c.box.y1)
    requires Spanned(xs, xe, ox, k.srcW, k.outW, Area(k), c.box.x0, c.box.x1)
    requires reduced.Length0 == |oy| && reduced.Length1 == |ox|
    requires forall a: nat, q: nat | a < |oy| && q < |ox| ::
               Peak(reduced[a, q], c.score, Patch(c, ys[a], ye[a], xs[q], xe[q]))
    modifies output
    ensures Pooled(output, k, Either(before, c.score))
  {
    hide Peak, Meets, AxisStart, AxisStop;
    NothingWritten(output, k, c, before, oy, ox);
    for a := 0 to |oy|
      invariant WrittenUpTo(output, k, c, before, oy, ox, a, 0)
    {
      for q := 0 to |ox|
        invariant WrittenUpTo(output, k, c, before, oy, ox, a, q)
      {
        WriteOne(output, k, c, reduced[a, q], oy, ox, a, q, Patch(c, ys[a], ye[a], xs[q], xe[q]), before);
      }
      RowWritten(output, k, c, before, oy, ox, a);
    }
  }

  method WriteOne(output: array2<nat>, k: Scale, c: Crop, v: nat, oy: seq<nat>, ox: seq<nat>, a: nat, q: nat,
                  ghost part: Box, ghost before: Field)
    requires k.outH > 0 && k.outW > 0 && output.Length0 == k.outH && output.Length1 == k.outW && Within(c)
    requires a < |oy| && q < |ox| && oy[a] < k.outH && ox[q] < k.outW
    requires forall x, y | 0 <= x < y < |oy| :: oy[x] < oy[y]
    requires forall x, y | 0 <= x < y < |ox| :: ox[x] < ox[y]
    requires part == Clip(Footprint(k, oy[a], ox[q]), c.box) && Peak(v, c.score, part)
    requires WrittenUpTo(output, k, c, before, oy, ox, a, q)
    modifies output
    ensures WrittenUpTo(output, k, c, before, oy, ox, a, q + 1)
  {
    hide Peak, Footprint, Either;
    var i, j := oy[a], ox[q];
    assert ox[q..] == [ox[q]] + ox[q + 1..];
    assert i !in oy[a + 1..] && j !in ox[q + 1..];
    MetPools(output[i, j], v, k, c, before, i, j, part);
    output[i, j] := Max(output[i, j], v);
  }

  lemma {:induction false} RowWritten(output: array2<nat>, k: Scale, c: Crop, before: Field, oy: seq<nat>,
        ox: seq<nat>, a: nat)
    requires k.outH > 0 && k.outW > 0 && a < |oy| && output.Length0 == k.outH && output.Length1 == k.outW
    requires WrittenUpTo(output, k, c, before, oy, ox, a, |ox|)
    ensures WrittenUpTo(output, k, c, before, oy, ox, a + 1, 0)
  {
    hide Peak, Footprint, Either;
    assert ox[0..] == ox && ox[|ox|..] == [];
    assert a + 1 < |oy| ==> oy[a + 1..] == [oy[a + 1]] + oy[a + 2..];
  }

  /** Pools one crop into the output by the two passes; refused when the crop leaves the source plane. */
  method MaxCropInto(output: array2<nat>, k: Scale, c: Crop, ghost before: Field) returns (ok: bool)
    requires Within(c) && Pooled(output, k, before)
    modifies output
    ensures ok <==> ValidCrop(k, c)
    ensures ok <==> 0 <= c.box.y0 <= c.box.y1 <= k.srcH && 0 <= c.box.x0 <= c.box.x1 <= k.srcW
    ensures ok ==> Pooled(output, k, Either(before, c.score))
    ensures !ok ==> Pooled(output, k, before)
  {
    hide Peak, Footprint, Either, Picked, Spanned;
    if !ValidCrop(k, c) {
      return false;
    }
    ok := true;
    if c.box.y0 == c.box.y1 || c.box.x0 == c.box.x1 {
      EmptyCrop(output, k, c, before);
      return;
    }
    var area := Area(k);
    var oy := Pick(k.srcH, k.outH, area, c.box.y0, c.box.y1);
    var ox := Pick(k.srcW, k.outW, area, c.box.x0, c.box.x1);
    if oy == [] || ox == [] {
      NoneSelected(output, k, c, before, oy, ox);
      return;
    }
    var xs, xe := Spans(ox, k.srcW, k.outW, area, c.box.x0, c.box.x1);
    SpansOpen(xs, xe, ox, k.srcW, k.outW, area, c.box.x0, c.box.x1);
    var horizontal := Horizontal(c, xs, xe);
    var ys, ye := Spans(oy, k.srcH, k.outH, area, c.box.y0, c.box.y1);
    SpansOpen(ys, ye, oy, k.srcH, k.outH, area, c.box.y0, c.box.y1);
    var reduced := Vertical(c, horizontal, ys, ye, xs, xe);
    WriteSelection(output, k, c, reduced, oy, ox, ys, ye, xs, xe, before);
  }

  lemma {:induction false} SpansOpen(starts: seq<nat>, ends: seq<nat>, picks: seq<nat>, src: nat, out: nat,
        area: bool, lo: int, hi: int)
    requires out > 0 && Spanned(starts, ends, picks, src, out, area, lo, hi)
    ensures |starts| == |ends| == |picks| && forall a | 0 <= a < |picks| :: starts[a] < ends[a] <= hi - lo
  {
  }

  lemma {:induction false} EmptyCrop(output: array2<nat>, k: Scale, c: Crop, before: Field)
    requires Within(c) && Pooled(output, k, before) && (c.box.y1 <= c.box.y0 || c.box.x1 <= c.box.x0)
    ensures Pooled(output, k, Either(before, c.score))
  {
    hide Peak, Footprint, Either;
    forall i, j | 0 <= i < k.outH && 0 <= j < k.outW
      ensures Peak(output[i, j], Either(before, c.score), Footprint(k, i, j))
    {
      MissedPools(output[i, j], k, c, before, i, j);
    }
  }

  lemma {:induction false} NoneSelected(output: array2<nat>, k: Scale, c: Crop, before: Field, oy: seq<nat>,
        ox: seq<nat>)
    requires Within(c) && Pooled(output, k, before) && (oy == [] || ox == [])
    requires Picked(oy, k.srcH, k.outH, Area(k), c.box.y0, c.box.y1, k.outH)
    requires Picked(ox, k.srcW, k.outW, Area(k), c.box.x0, c.box.x1, k.outW)
    ensures Pooled(output, k, Either(before, c.score))
  {
    hide Peak, Footprint, Either, Meets;
    NothingWritten(output, k, c, before, oy, ox);
    assert ox == [] ==> forall j: nat :: j !in ox;
  }

  // Many crops

  /** The pointwise maximum of the crops fed so far. */
  function Fed(crops: seq<Crop>): Field {
    if crops == [] then (y, x) => 0 else Either(Fed(crops[..|crops| - 1]), crops[|crops| - 1].score)
  }

  /** The field fed depends on what the crops hold, not on their order or number. */
  lemma {:induction false} FedIsLargest(crops: seq<Crop>, y: int, x: int)
    ensures forall c | c in crops :: c.score(y, x) <= Fed(crops)(y, x)
    ensures Fed(crops)(y, x) == 0 || exists c :: c in crops && c.score(y, x) == Fed(crops)(y, x)
  {
    if crops != [] {
      var init, last := crops[..|crops| - 1], crops[|crops| - 1];
      FedIsLargest(init, y, x);
      assert crops == init + [last];
      assert Fed(crops)(y, x) == Max(Fed(init)(y, x), last.score(y, x));
      assert last in crops;
    }
  }

  /** Two feeds that hold the same scores pool to the same output, whatever their crops and order. */
  lemma {:induction false} PoolingIsPartitionFree(a: seq<Crop>, b: seq<Crop>, scores: Field, v: nat, w: nat, box: Box)
    requires Covers(a, scores) && Covers(b, scores)
    requires Peak(v, Fed(a), box) && Peak(w, Fed(b), box)
    ensures v == w && Peak(v, scores, box)
  {
    forall y, x
      ensures Fed(a)(y, x) == scores(y, x) == Fed(b)(y, x)
    {
      FedIsLargest(a, y, x);
      FedIsLargest(b, y, x);
    }
    PeakSame(v, Fed(a), scores, box);
    PeakSame(w, Fed(b), scores, box);
    PeakUnique(v, w, scores, box);
  }

  /** The crops hold nothing but the known scores, and every known score is in one of them. */
  ghost predicate Covers(crops: seq<Crop>, scores: Field) {
    && (forall c, y, x | c in crops :: c.score(y, x) == 0 || c.score(y, x) == scores(y, x))
    && (forall y, x | scores(y, x) != 0 :: exists c :: c in crops && c.score(y, x) == scores(y, x))
  }

  lemma {:induction false} PeakSame(v: nat, f: Field, g: Field, b: Box)
    requires Peak(v, f, b) && forall y, x :: f(y, x) == g(y, x)
    ensures Peak(v, g, b)
  {
    if v != 0 {
      var y, x :| Inside(b, y, x) && f(y, x) == v;
      assert g(y, x) == v;
    }
  }

  predicate Blank(mask: array2<nat>)
    reads mask
  {
    forall i, j | 0 <= i < mask.Length0 && 0 <= j < mask.Length1 :: mask[i, j] == 0
  }

  // The frames of a plane

  /** The source frames of output plane `z`: a footprint when contracting, the nearest when expanding. */
  function SourceFrames(src: nat, out: nat, z: nat): (frames: (nat, nat))
    requires src > 0 && z < out
  {
    if src >= out then (First(src, out, z), Stop(src, out, z))
    else
      var nearest := RoundHalfEven(z * (src - 1), out - 1);
      if nearest < 0 then (0, 1) else (nearest, nearest + 1)
  }

  /** The crops of frames `first` up to `stop`, one frame after another. */
  function CropsOf(reader: nat -> seq<Crop>, first: nat, stop: nat): seq<Crop>
    decreases stop
  {
    if stop <= first then [] else CropsOf(reader, first, stop - 1) + reader(stop - 1)
  }

  /** A plane of pixels that holds the separable form's maxima on its mask, and zero off it. */
  ghost predicate Compacted(k: Scale, reader: nat -> seq<Crop>, first: nat, stop: nat, mask: array2<nat>,
        result: array2<nat>)
    requires k.outH > 0 && k.outW > 0
    reads mask, result
  {
    && mask.Length0 == result.Length0 == k.outH && mask.Length1 == result.Length1 == k.outW
    && forall i, j | 0 <= i < k.outH && 0 <= j < k.outW ::
         if mask[i, j] == 0 then result[i, j] == 0
         else Peak(result[i, j], Fed(CropsOf(reader, first, stop)), Footprint(k, i, j))
  }

  /** Pools the crops of the frames that make up one output plane, then drops what lies off the mask. */
  method CompactScorePlane(reader: nat -> seq<Crop>, mask: array2<nat>, k: Scale, srcT: nat, outT: nat, z: nat)
    returns (result: Option<array2<nat>>)
    requires mask.Length0 == k.outH > 0 && mask.Length1 == k.outW > 0 && srcT > 0 && z < outT
    requires forall t: nat, c | c in reader(t) :: Within(c)
    ensures var (first, stop) := SourceFrames(srcT, outT, z);
            var crops := CropsOf(reader, first, stop);
      && (result.Some? <==> Blank(mask) || forall c | c in crops :: ValidCrop(k, c))
      && (result.Some? ==> Compacted(k, reader, first, stop, mask, result.value))
  {
    hide Peak, Footprint;
    var output := new nat[k.outH, k.outW]((i, j) => 0);
    if Blank(mask) {
      return Some(output);
    }
    NothingPooled(k);
    var (first, stop) := SourceFrames(srcT, outT, z);
    hide SourceFrames;
    var t := first;
    while t < stop
      invariant first <= t <= stop || (t == first && stop < first)
      invariant Pooled(output, k, Fed(CropsOf(reader, first, t)))
      invariant forall c | c in CropsOf(reader, first, t) :: ValidCrop(k, c)
      decreases stop - t
    {
      var crops := reader(t);
      var ok := FeedCrops(output, k, crops, CropsOf(reader, first, t));
      if !ok {
        SomeInvalid(reader, k, first, t, stop);
        return None;
      }
      t := t + 1;
    }
    assert CropsOf(reader, first, t) == CropsOf(reader, first, stop);
    DropOffMask(output, mask, k, Fed(CropsOf(reader, first, stop)));
    result := Some(output);
  }

  lemma {:induction false} SomeInvalid(reader: nat -> seq<Crop>, k: Scale, first: nat, t: nat, stop: nat)
    requires first <= t < stop && exists c :: c in reader(t) && !ValidCrop(k, c)
    ensures exists c :: c in CropsOf(reader, first, stop) && !ValidCrop(k, c)
    decreases stop
  {
    if t + 1 < stop {
      SomeInvalid(reader, k, first, t, stop - 1);
      var c :| c in CropsOf(reader, first, stop - 1) && !ValidCrop(k, c);
      assert c in CropsOf(reader, first, stop);
    } else {
      var c :| c in reader(t) && !ValidCrop(k, c);
      assert c in CropsOf(reader, first, stop);
    }
  }

  lemma {:induction false} FedGrows(fed: seq<Crop>, crops: seq<Crop>, n: nat)
    requires n < |crops|
    ensures Fed(fed + crops[..n + 1]) == Either(Fed(fed + crops[..n]), crops[n].score)
  {
    hide Either;
    var next := fed + crops[..n + 1];
    assert next[..|next| - 1] == fed + crops[..n] && next[|next| - 1] == crops[n];
  }

  /** The crops of one frame. */
  method FeedCrops(output: array2<nat>, k: Scale, crops: seq<Crop>, ghost fed: seq<Crop>) returns (ok: bool)
    requires Pooled(output, k, Fed(fed)) && forall c | c in crops :: Within(c)
    modifies output
    ensures ok <==> forall c | c in crops :: ValidCrop(k, c)
    ensures ok ==> Pooled(output, k, Fed(fed + crops))
  {
    hide Peak, Footprint, Fed, Either, ValidCrop;
    assert fed + crops[..0] == fed;
    for n := 0 to |crops|
      invariant Pooled(output, k, Fed(fed + crops[..n]))
      invariant forall m | 0 <= m < n :: ValidCrop(k, crops[m])
    {
      assert crops[n] in crops;
      FedGrows(fed, crops, n);
      ok := MaxCropInto(output, k, crops[n], Fed(fed + crops[..n]));
      if !ok {
        return;
      }
    }
    assert crops[..|crops|] == crops;
    ok := true;
  }

  /** Zeroes the pixels that the mask leaves out. */
  method DropOffMask(output: array2<nat>, mask: array2<nat>, k: Scale, ghost f: Field)
    requires output != mask && mask.Length0 == k.outH && mask.Length1 == k.outW && Pooled(output, k, f)
    modifies output
    ensures forall i, j | 0 <= i < k.outH && 0 <= j < k.outW ::
              if mask[i, j] == 0 then output[i, j] == 0 else Peak(output[i, j], f, Footprint(k, i, j))
  {
    hide Peak, Footprint;
    for i := 0 to k.outH
      invariant forall u, t | 0 <= u < k.outH && 0 <= t < k.outW ::
        if u < i && mask[u, t] == 0 then output[u, t] == 0 else Peak(output[u, t], f, Footprint(k, u, t))
    {
      for j := 0 to k.outW
        invariant forall u, t | 0 <= u < k.outH && 0 <= t < k.outW ::
          if (u < i || (u == i && t < j)) && mask[u, t] == 0 then output[u, t] == 0
          else Peak(output[u, t], f, Footprint(k, u, t))
      {
        if mask[i, j] == 0 {
          output[i, j] := 0;
        }
      }
    }
  }

  lemma {:induction false} NothingPooled(k: Scale)
    requires k.outH > 0 && k.outW > 0
    ensures forall i: nat, j: nat :: Peak(0, Fed([]), Footprint(k, i, j))
  {
  }
}
