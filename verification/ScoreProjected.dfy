/** Cutting the one tight crop of a projected plane, chunk by chunk over its flat positions. */
module ScoreProjected {
  import opened Options
  import opened ScoreBlocks
  import opened ScoreCapture
  import opened ScoreOverlay
  import AxisRanges

  const CHUNK := 16384

  function Size(h: nat, w: nat): nat {
    h * w
  }

  // Flat positions

  function RowOf(q: nat, w: nat): nat
    requires w > 0
  {
    q / w
  }

  function ColumnOf(q: nat, w: nat): nat
    requires w > 0
  {
    q % w
  }

  lemma {:induction false} RowsRise(p: nat, q: nat, w: nat)
    requires w > 0 && p <= q
    ensures RowOf(p, w) <= RowOf(q, w)
  {
    AxisRanges.FloorMeans(p, w, p / w);
    AxisRanges.FloorMeans(q, w, q / w);
    if q / w < p / w {
      AxisRanges.Next(q / w, p / w, w);
    }
  }

  /** The flat position of a pixel. */
  lemma {:induction false} FlatOf(y: nat, x: nat, h: nat, w: nat) returns (q: nat)
    requires x < w && y < h
    ensures q < Size(h, w) && RowOf(q, w) == y && ColumnOf(q, w) == x
  {
    q := y * w + x;
    AxisRanges.FloorMeans(q, w, y);
    AxisRanges.Next(y, h, w);
    assert q == (q / w) * w + q % w;
  }

  lemma {:induction false} PixelOf(q: nat, h: nat, w: nat)
    requires w > 0 && q < Size(h, w)
    ensures RowOf(q, w) < h && ColumnOf(q, w) < w
  {
    AxisRanges.FloorMeans(q, w, q / w);
    if h <= q / w {
      AxisRanges.Scale(h, q / w, w);
    }
  }

  ghost predicate Hit(value: Values, w: nat, q: nat)
    requires w > 0
  {
    value(RowOf(q, w), ColumnOf(q, w)) != 0
  }

  /** The running box over the flat positions below `n`; its top is the height while there are none. */
  ghost predicate Bounded(value: Values, h: nat, w: nat, n: nat, b: Box)
    requires w > 0
  {
    && (forall q: nat | q < n && Hit(value, w, q) :: Inside(b, RowOf(q, w), ColumnOf(q, w)))
    && (b == Box(h, 0, w, 0) || Attained(value, w, n, b))
  }

  ghost predicate Attained(value: Values, w: nat, n: nat, b: Box)
    requires w > 0
  {
    && (exists q: nat :: q < n && Hit(value, w, q) && RowOf(q, w) == b.y0)
    && (exists q: nat :: q < n && Hit(value, w, q) && RowOf(q, w) == b.y1 - 1)
    && (exists q: nat :: q < n && Hit(value, w, q) && ColumnOf(q, w) == b.x0)
    && (exists q: nat :: q < n && Hit(value, w, q) && ColumnOf(q, w) == b.x1 - 1)
  }

  /** The positions of a chunk whose scores are not zero, in order. */
  ghost predicate IsPositions(value: Values, w: nat, first: nat, stop: nat, ps: seq<nat>)
    requires w > 0
  {
    && (forall i | 0 <= i < |ps| :: first <= ps[i] < stop && Hit(value, w, ps[i]))
    && (forall i, j | 0 <= i < j < |ps| :: ps[i] < ps[j])
    && (forall q: nat | first <= q < stop && Hit(value, w, q) :: q in ps)
  }

  method Positions(value: Values, w: nat, first: nat, stop: nat) returns (ps: seq<nat>)
    requires w > 0 && first <= stop
    ensures IsPositions(value, w, first, stop, ps)
  {
    ps := [];
    for q := first to stop
      invariant IsPositions(value, w, first, q, ps)
    {
      if value(RowOf(q, w), ColumnOf(q, w)) != 0 {
        ps := ps + [q];
      }
    }
  }

  /** The least and the greatest column of some positions. */
  method Columns(ps: seq<nat>, w: nat) returns (least: int, greatest: int)
    requires w > 0 && ps != []
    ensures forall i | 0 <= i < |ps| :: least <= ColumnOf(ps[i], w) <= greatest
    ensures exists i | 0 <= i < |ps| :: ColumnOf(ps[i], w) == least
    ensures exists i | 0 <= i < |ps| :: ColumnOf(ps[i], w) == greatest
  {
    least, greatest := ColumnOf(ps[0], w), ColumnOf(ps[0], w);
    for n := 1 to |ps|
      invariant forall i | 0 <= i < n :: least <= ColumnOf(ps[i], w) <= greatest
      invariant exists i | 0 <= i < n :: ColumnOf(ps[i], w) == least
      invariant exists i | 0 <= i < n :: ColumnOf(ps[i], w) == greatest
    {
      var column := ColumnOf(ps[n], w);
      if column < least {
        least := column;
      }
      if column > greatest {
        greatest := column;
      }
    }
  }

  lemma {:induction false} NothingBounds(value: Values, h: nat, w: nat, first: nat, stop: nat, b: Box)
    requires w > 0 && first <= stop && Bounded(value, h, w, first, b) && IsPositions(value, w, first, stop, [])
    ensures Bounded(value, h, w, stop, b)
  {
    if Attained(value, w, first, b) {
      AttainedStays(value, w, first, stop, b);
    }
  }

  lemma {:induction false} AttainedStays(value: Values, w: nat, n: nat, m: nat, b: Box)
    requires w > 0 && n <= m && Attained(value, w, n, b)
    ensures Attained(value, w, m, b)
  {
    hide Hit;
    var p: nat :| p < n && Hit(value, w, p) && RowOf(p, w) == b.y0;
    var q: nat :| q < n && Hit(value, w, q) && RowOf(q, w) == b.y1 - 1;
    var r: nat :| r < n && Hit(value, w, r) && ColumnOf(r, w) == b.x0;
    var s: nat :| s < n && Hit(value, w, s) && ColumnOf(s, w) == b.x1 - 1;
    assert p < m && q < m && r < m && s < m;
  }

  /** The box of a chunk: rows from its first and last position, columns from all of them. */
  lemma {:induction false} PartBounds(value: Values, w: nat, first: nat, stop: nat, ps: seq<nat>, part: Box)
    requires w > 0 && first <= stop && IsPositions(value, w, first, stop, ps) && ps != []
    requires part.y0 == RowOf(ps[0], w) && part.y1 == RowOf(ps[|ps| - 1], w) + 1
    requires forall i | 0 <= i < |ps| :: part.x0 <= ColumnOf(ps[i], w) <= part.x1 - 1
    requires exists i | 0 <= i < |ps| :: ColumnOf(ps[i], w) == part.x0
    requires exists i | 0 <= i < |ps| :: ColumnOf(ps[i], w) == part.x1 - 1
    ensures forall q: nat | first <= q < stop && Hit(value, w, q) :: Inside(part, RowOf(q, w), ColumnOf(q, w))
    ensures Attained(value, w, stop, part)
  {
    hide Hit;
    forall q: nat | first <= q < stop && Hit(value, w, q)
      ensures Inside(part, RowOf(q, w), ColumnOf(q, w))
    {
      assert q in ps;
      var i :| 0 <= i < |ps| && ps[i] == q;
      RowsRise(ps[0], ps[i], w);
      RowsRise(ps[i], ps[|ps| - 1], w);
    }
    assert ps[0] < stop && ps[|ps| - 1] < stop;
  }

  lemma {:induction false} WidenBounds(value: Values, h: nat, w: nat, first: nat, stop: nat, b: Box, part: Box)
    requires w > 0 && first <= stop <= Size(h, w) && Bounded(value, h, w, first, b)
    requires forall q: nat | first <= q < stop && Hit(value, w, q) :: Inside(part, RowOf(q, w), ColumnOf(q, w))
    requires Attained(value, w, stop, part)
    ensures Bounded(value, h, w, stop, Widen(b, part))
  {
    hide Hit;
    forall q: nat | q < stop && Hit(value, w, q)
      ensures Inside(Widen(b, part), RowOf(q, w), ColumnOf(q, w))
    {
      assert q < first || first <= q;
    }
    if Attained(value, w, first, b) {
      AttainedStays(value, w, first, stop, b);
      AttainedWidens(value, w, stop, b, part);
    } else {
      FirstPart(value, h, w, stop, b, part);
    }
  }

  lemma {:induction false} AttainedWidens(value: Values, w: nat, n: nat, a: Box, b: Box)
    requires w > 0 && Attained(value, w, n, a) && Attained(value, w, n, b)
    ensures Attained(value, w, n, Widen(a, b))
  {
    hide Hit;
  }

  /** The first nonempty chunk replaces the sentinels. */
  lemma {:induction false} FirstPart(value: Values, h: nat, w: nat, n: nat, b: Box, part: Box)
    requires w > 0 && n <= Size(h, w) && b == Box(h, 0, w, 0) && Attained(value, w, n, part)
    ensures Widen(b, part) == part
  {
    hide Hit;
    var p: nat :| p < n && Hit(value, w, p) && RowOf(p, w) == part.y0;
    var q: nat :| q < n && Hit(value, w, q) && RowOf(q, w) == part.y1 - 1;
    var r: nat :| r < n && Hit(value, w, r) && ColumnOf(r, w) == part.x0;
    var s: nat :| s < n && Hit(value, w, s) && ColumnOf(s, w) == part.x1 - 1;
    PixelOf(p, h, w);
    PixelOf(r, h, w);
  }

  lemma {:induction false} BoundedIsTight(value: Values, h: nat, w: nat, b: Box)
    requires w > 0 && Bounded(value, h, w, Size(h, w), b)
    ensures b.y0 == h <==> !Any(Scored(value), Box(0, h, 0, w))
    ensures b.y0 != h ==> TightIn(Scored(value), Box(0, h, 0, w), b)
  {
    var p := Scored(value);
    var whole := Box(0, h, 0, w);
    forall y, x | Inside(whole, y, x) && p(y, x)
      ensures Inside(b, y, x)
    {
      var q := FlatOf(y, x, h, w);
      assert Hit(value, w, q);
    }
    if Attained(value, w, Size(h, w), b) {
      AttainedIsTight(value, h, w, b);
    }
  }

  lemma {:induction false} AttainedIsTight(value: Values, h: nat, w: nat, b: Box)
    requires w > 0 && Attained(value, w, Size(h, w), b)
    requires forall y, x | Inside(Box(0, h, 0, w), y, x) && Scored(value)(y, x) :: Inside(b, y, x)
    ensures b.y0 != h && TightIn(Scored(value), Box(0, h, 0, w), b)
  {
    hide Hit, RowHit, ColumnHit, RowOf, ColumnOf, Size, Scored;
    var m := Size(h, w);
    var p: nat :| p < m && Hit(value, w, p) && RowOf(p, w) == b.y0;
    var q: nat :| q < m && Hit(value, w, q) && RowOf(q, w) == b.y1 - 1;
    var r: nat :| r < m && Hit(value, w, r) && ColumnOf(r, w) == b.x0;
    var s: nat :| s < m && Hit(value, w, s) && ColumnOf(s, w) == b.x1 - 1;
    Witness(value, h, w, b, p);
    Witness(value, h, w, b, q);
    Witness(value, h, w, b, r);
    Witness(value, h, w, b, s);
  }

  lemma {:induction false} Witness(value: Values, h: nat, w: nat, b: Box, q: nat)
    requires w > 0 && q < Size(h, w) && Hit(value, w, q)
    requires forall y, x | Inside(Box(0, h, 0, w), y, x) && Scored(value)(y, x) :: Inside(b, y, x)
    ensures Inside(Box(0, h, 0, w), RowOf(q, w), ColumnOf(q, w)) && Inside(b, RowOf(q, w), ColumnOf(q, w))
    ensures RowHit(Scored(value), Box(0, h, 0, w), RowOf(q, w))
            && ColumnHit(Scored(value), Box(0, h, 0, w), ColumnOf(q, w))
  {
    PixelOf(q, h, w);
    assert Scored(value)(RowOf(q, w), ColumnOf(q, w));
  }

  /** The tight box of a plane's nonzero scores, without listing its cells. */
  method ReadCrop(value: Values, h: nat, w: nat) returns (box: Option<Box>)
    ensures box.Some? <==> Any(Scored(value), Box(0, h, 0, w))
    ensures box.Some? ==> TightIn(Scored(value), Box(0, h, 0, w), box.value)
  {
    if w == 0 {
      return None;
    }
    var b := Box(h, 0, w, 0);
    var first, size: nat := 0, Size(h, w);
    while first < size
      invariant first <= size && Bounded(value, h, w, first, b)
      decreases size - first
    {
      var stop := if first + CHUNK < size then first + CHUNK else size;
      var ps := Positions(value, w, first, stop);
      if ps == [] {
        NothingBounds(value, h, w, first, stop, b);
      } else {
        var least, greatest := Columns(ps, w);
        var part := Box(RowOf(ps[0], w), RowOf(ps[|ps| - 1], w) + 1, least, greatest + 1);
        PartBounds(value, w, first, stop, ps, part);
        WidenBounds(value, h, w, first, stop, b, part);
        b := Widen(b, part);
      }
      first := stop;
    }
    BoundedIsTight(value, h, w, b);
    box := if b.y0 == h then None else Some(b);
  }
}
