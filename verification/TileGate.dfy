/** Gating whole tile components against parent support, and accumulating what is accepted. */
module TileGate {
  import opened Grid

  function Move(c: Cell, dy: int, dx: int): Cell {
    (c.0 + dy, c.1 + dx)
  }

  lemma {:induction false} MoveBack(c: Cell, dy: int, dx: int)
    ensures Move(Move(c, dy, dx), -dy, -dx) == c && Move(Move(c, -dy, -dx), dy, dx) == c
  {
  }

  ghost function Shift(s: set<Cell>, dy: int, dx: int): set<Cell> {
    set c: Cell | c in s :: Move(c, dy, dx)
  }

  lemma {:induction false} InShift(s: set<Cell>, dy: int, dx: int, c: Cell)
    ensures c in Shift(s, dy, dx) <==> Move(c, -dy, -dx) in s
  {
    hide Move;
    MoveBack(c, dy, dx);
    forall b | b in s
      ensures Move(Move(b, dy, dx), -dy, -dx) == b
    {
      MoveBack(b, dy, dx);
    }
  }

  ghost function Accepted(tile: set<Cell>, support: set<Cell>): set<Cell> {
    Keep(tile, true, support)
  }

  ghost function Rejected(tile: set<Cell>, support: set<Cell>): set<Cell> {
    tile - Accepted(tile, support)
  }

  // Two stages

  /** After the mask stage and the bridge stage on its residual, the accepted cells are the whole
      components that meet either support, the bridge category holds those that meet the bridge
      but not the mask, and what is rejected is the rest of the tile. */
  lemma {:induction false} TwoStages(tile: set<Cell>, mask: set<Cell>, bridge: set<Cell>)
    ensures var rest := Rejected(tile, mask);
      && Accepted(tile, mask) + Accepted(rest, bridge) == Accepted(tile, mask + bridge)
      && Accepted(rest, bridge) == Accepted(tile, bridge) - Accepted(tile, mask)
      && Rejected(rest, bridge) == Rejected(tile, mask + bridge)
  {
    hide Linked, Keep, Whole;
    var rest := Rejected(tile, mask);
    KeepIsWhole(tile, true, mask);
    WholeRest(Accepted(tile, mask), tile, true);
    KeepWithin(rest, tile, true, bridge);
    EitherSupport(tile, mask, bridge);
    AcceptedIsPart(tile, mask);
    AcceptedIsPart(tile, bridge);
    Parts(tile, Accepted(tile, mask), Accepted(tile, bridge));
  }

  lemma {:induction false} Parts(t: set<Cell>, a: set<Cell>, b: set<Cell>)
    requires a <= t && b <= t
    ensures a + b * (t - a) == a + b && b * (t - a) == b - a && t - a - b * (t - a) == t - (a + b)
  {
  }

  /** No stage cuts a component of the original tile. */
  lemma {:induction false} StagesKeepComponents(tile: set<Cell>, mask: set<Cell>, bridge: set<Cell>)
    ensures Whole(Accepted(tile, mask), tile, true)
    ensures Whole(Accepted(Rejected(tile, mask), bridge), tile, true)
    ensures Whole(Rejected(Rejected(tile, mask), bridge), tile, true)
  {
    hide Linked, Keep, Whole;
    TwoStages(tile, mask, bridge);
    KeepIsWhole(tile, true, mask);
    KeepIsWhole(tile, true, bridge);
    KeepIsWhole(tile, true, mask + bridge);
    WholeRest(Accepted(tile, mask + bridge), tile, true);
    WholeMinus(Accepted(tile, bridge), Accepted(tile, mask), tile);
  }

  lemma {:induction false} AcceptedIsPart(tile: set<Cell>, support: set<Cell>)
    ensures Accepted(tile, support) <= tile
  {
  }

  lemma {:induction false} EitherSupport(tile: set<Cell>, mask: set<Cell>, bridge: set<Cell>)
    ensures Accepted(tile, mask + bridge) == Accepted(tile, mask) + Accepted(tile, bridge)
  {
    hide Linked;
    forall c | c in tile
      ensures c in Accepted(tile, mask + bridge) <==> c in Accepted(tile, mask) || c in Accepted(tile, bridge)
    {
      if d: Cell :| d in mask + bridge && Linked(tile, true, c, d) {
        assert d in mask || d in bridge;
      }
    }
  }

  lemma {:induction false} WholeMinus(a: set<Cell>, b: set<Cell>, m: set<Cell>)
    requires Whole(a, m, true) && Whole(b, m, true)
    ensures Whole(a - b, m, true)
  {
    hide Linked;
    WholeRest(b, m, true);
  }

  lemma {:induction false} VoxelsConserved(tile: set<Cell>, support: set<Cell>)
    ensures |Accepted(tile, support)| + |Rejected(tile, support)| == |tile|
  {
    hide Keep, Linked, Accepted;
    AcceptedIsPart(tile, support);
    DisjointSize(Accepted(tile, support), Rejected(tile, support));
    assert Accepted(tile, support) + Rejected(tile, support) == tile;
  }

  // Crop by crop

  lemma {:induction false} LinkedShift(m: set<Cell>, a: Cell, b: Cell, dy: int, dx: int)
    requires Linked(m, true, a, b)
    ensures Linked(Shift(m, dy, dx), true, Move(a, dy, dx), Move(b, dy, dx))
  {
    var p: seq<Cell> :| Joins(p, m, true, a, b);
    var q := seq(|p|, i requires 0 <= i < |p| => Move(p[i], dy, dx));
    forall i | 0 < i < |q|
      ensures Adjacent(true, q[i - 1], q[i])
    {
      assert Adjacent(true, p[i - 1], p[i]);
    }
    assert Joins(q, Shift(m, dy, dx), true, Move(a, dy, dx), Move(b, dy, dx));
  }

  lemma {:induction false} ShiftBack(s: set<Cell>, dy: int, dx: int)
    ensures Shift(Shift(s, dy, dx), -dy, -dx) == s
  {
    hide Shift, Move;
    forall c: Cell
      ensures c in Shift(Shift(s, dy, dx), -dy, -dx) <==> c in s
    {
      InShift(Shift(s, dy, dx), -dy, -dx, c);
      InShift(s, dy, dx, Move(c, dy, dx));
      MoveBack(c, dy, dx);
    }
  }

  lemma {:induction false} AcceptedShift(m: set<Cell>, support: set<Cell>, dy: int, dx: int)
    ensures Accepted(Shift(m, dy, dx), Shift(support, dy, dx)) == Shift(Accepted(m, support), dy, dx)
  {
    hide Move, Shift, Linked;
    var sm, ss := Shift(m, dy, dx), Shift(support, dy, dx);
    forall c: Cell
      ensures c in Accepted(sm, ss) <==> c in Shift(Accepted(m, support), dy, dx)
    {
      var b := Move(c, -dy, -dx);
      MoveBack(c, dy, dx);
      InShift(m, dy, dx, c);
      InShift(Accepted(m, support), dy, dx, c);
      if d: Cell :| d in support && Linked(m, true, b, d) {
        LinkedShift(m, b, d, dy, dx);
        InShift(support, dy, dx, Move(d, dy, dx));
        MoveBack(d, dy, dx);
      }
      if d: Cell :| d in ss && Linked(sm, true, c, d) {
        LinkedShift(sm, c, d, -dy, -dx);
        ShiftBack(m, dy, dx);
        InShift(support, dy, dx, d);
      }
    }
  }

  /** Only support on the tile's own foreground matters. */
  lemma {:induction false} SupportOnTile(tile: set<Cell>, a: set<Cell>, b: set<Cell>)
    requires a * tile == b * tile
    ensures Accepted(tile, a) == Accepted(tile, b)
  {
    forall c, d: Cell | Linked(tile, true, c, d)
      ensures d in a <==> d in b
    {
      LinkedEnds(tile, true, c, d);
      assert d in a * tile <==> d in b * tile;
    }
  }

  /** A stored slice: nothing, or a tight box with the foreground in the box's own coordinates. */
  datatype Stored = Empty | Crop(box: Rect, cells: set<Cell>)

  ghost function Decoded(p: Stored): set<Cell> {
    match p
    case Empty => {}
    case Crop(box, cells) => Shift(cells, box.y0, box.x0)
  }

  ghost predicate Tight(box: Rect, s: set<Cell>) {
    && s <= Cells(box)
    && (exists c :: c in s && c.0 == box.y0) && (exists c :: c in s && c.0 == box.y1 - 1)
    && (exists c :: c in s && c.1 == box.x0) && (exists c :: c in s && c.1 == box.x1 - 1)
  }

  /** Every nonempty plane has such a box. */
  lemma {:induction false} TightExists(s: set<Cell>)
    requires s != {}
    ensures exists box :: Tight(box, s)
  {
    var c :| c in s;
    var top := Least(s, true, c);
    var left := Least(s, false, c);
    var bottom := Greatest(s, true, c);
    var right := Greatest(s, false, c);
    var box := Rect(top.0, bottom.0 + 1, left.1, right.1 + 1);
    forall d | d in s
      ensures d in Cells(box)
    {
      assert Inside(box, d);
    }
    assert Tight(box, s);
  }

  function Along(row: bool, c: Cell): int {
    if row then c.0 else c.1
  }

  lemma {:induction false} Least(s: set<Cell>, row: bool, c: Cell) returns (d: Cell)
    requires c in s
    ensures d in s && forall e | e in s :: Along(row, d) <= Along(row, e)
  {
    if o :| o in s - {c} {
      d := Least(s - {c}, row, o);
      if Along(row, c) < Along(row, d) {
        d := c;
      }
      assert forall e | e in s :: e == c || e in s - {c};
    } else {
      d := c;
      assert forall e | e in s :: e == c || e in s - {c};
    }
  }

  lemma {:induction false} Greatest(s: set<Cell>, row: bool, c: Cell) returns (d: Cell)
    requires c in s
    ensures d in s && forall e | e in s :: Along(row, e) <= Along(row, d)
  {
    if o :| o in s - {c} {
      d := Greatest(s - {c}, row, o);
      if Along(row, d) < Along(row, c) {
        d := c;
      }
      assert forall e | e in s :: e == c || e in s - {c};
    } else {
      d := c;
      assert forall e | e in s :: e == c || e in s - {c};
    }
  }

  ghost predicate Encodes(p: Stored, s: set<Cell>) {
    Decoded(p) == s && (p.Crop? ==> Tight(p.box, s))
  }

  function Moved(p: Stored, dy: int, dx: int): Stored {
    match p
    case Empty => Empty
    case Crop(b, cells) => Crop(Rect(b.y0 + dy, b.y1 + dy, b.x0 + dx, b.x1 + dx), cells)
  }

  lemma {:induction false} ShiftTwice(s: set<Cell>, dy: int, dx: int, ey: int, ex: int)
    ensures Shift(Shift(s, dy, dx), ey, ex) == Shift(s, dy + ey, dx + ex)
  {
    hide Shift;
    forall c: Cell
      ensures c in Shift(Shift(s, dy, dx), ey, ex) <==> c in Shift(s, dy + ey, dx + ex)
    {
      InShift(Shift(s, dy, dx), ey, ex, c);
      InShift(s, dy, dx, Move(c, -ey, -ex));
      InShift(s, dy + ey, dx + ex, c);
      assert Move(Move(c, -ey, -ex), -dy, -dx) == Move(c, -(dy + ey), -(dx + ex));
    }
  }

  lemma {:induction false} InMoved(s: set<Cell>, dy: int, dx: int, c: Cell)
    requires c in s
    ensures Move(c, dy, dx) in Shift(s, dy, dx)
  {
  }

  lemma {:induction false} TightMoved(box: Rect, s: set<Cell>, dy: int, dx: int)
    requires Tight(box, s)
    ensures Tight(Rect(box.y0 + dy, box.y1 + dy, box.x0 + dx, box.x1 + dx), Shift(s, dy, dx))
  {
    hide Shift;
    var to, t := Rect(box.y0 + dy, box.y1 + dy, box.x0 + dx, box.x1 + dx), Shift(s, dy, dx);
    forall c | c in t
      ensures Inside(to, c)
    {
      InShift(s, dy, dx, c);
      assert Move(c, -dy, -dx) in Cells(box);
    }
    var a :| a in s && a.0 == box.y0;
    InMoved(s, dy, dx, a);
    var b :| b in s && b.0 == box.y1 - 1;
    InMoved(s, dy, dx, b);
    var d :| d in s && d.1 == box.x0;
    InMoved(s, dy, dx, d);
    var e :| e in s && e.1 == box.x1 - 1;
    InMoved(s, dy, dx, e);
    assert t <= Cells(to);
  }

  lemma {:induction false} InNoShift(dy: int, dx: int)
    ensures Shift({}, dy, dx) == {}
  {
  }

  /** A payload encoded in crop coordinates and then offset encodes the shifted plane. */
  lemma {:induction false} MovedEncodes(p: Stored, s: set<Cell>, dy: int, dx: int)
    requires Encodes(p, s)
    ensures Encodes(Moved(p, dy, dx), Shift(s, dy, dx))
  {
    hide Shift, Tight;
    match p
    case Empty =>
      InNoShift(dy, dx);
    case Crop(box, cells) =>
      ShiftTwice(cells, box.y0, box.x0, dy, dx);
      TightMoved(box, s, dy, dx);
  }

  /** What a support crop read at a parent rectangle holds, in the crop's own coordinates. */
  ghost function SupportCrop(support: set<Cell>, at: Rect): set<Cell> {
    Shift(support * Cells(at), -at.y0, -at.x0)
  }

  lemma {:induction false} InSupportCrop(support: set<Cell>, at: Rect, c: Cell)
    ensures c in SupportCrop(support, at) <==> Move(c, at.y0, at.x0) in support && Inside(at, Move(c, at.y0, at.x0))
  {
    InShift(support * Cells(at), -at.y0, -at.x0, c);
  }

  /** On the tile, the box's support crop and the parent's say the same. */
  lemma {:induction false} SameSupport(p: Stored, tile: set<Cell>, parent: Rect, support: set<Cell>)
    requires p.Crop? && Encodes(p, tile) && tile <= Cells(Rect(0, parent.y1 - parent.y0, 0, parent.x1 - parent.x0))
    ensures Shift(SupportCrop(support, Moved(p, parent.y0, parent.x0).box), p.box.y0, p.box.x0) * tile
      == SupportCrop(support, parent) * tile
  {
    hide SupportCrop, Shift;
    var dy, dx, at := p.box.y0, p.box.x0, Moved(p, parent.y0, parent.x0).box;
    forall c | c in tile
      ensures c in Shift(SupportCrop(support, at), dy, dx) <==> c in SupportCrop(support, parent)
    {
      InShift(SupportCrop(support, at), dy, dx, c);
      InSupportCrop(support, at, Move(c, -dy, -dx));
      InSupportCrop(support, parent, c);
      assert Move(Move(c, -dy, -dx), at.y0, at.x0) == Move(c, parent.y0, parent.x0);
      assert Inside(p.box, c);
    }
  }

  /** The dense gate works on the tile plane, the sparse one inside the stored box: both accept
      the same parent cells, and the offset residual payload encodes the dense residual. */
  lemma {:induction false} SparseGateIsDense(p: Stored, tile: set<Cell>, parent: Rect, support: set<Cell>, q: Stored)
    requires Encodes(p, tile) && tile <= Cells(Rect(0, parent.y1 - parent.y0, 0, parent.x1 - parent.x0))
    requires p.Crop? ==> Encodes(q, Rejected(p.cells, SupportCrop(support, Moved(p, parent.y0, parent.x0).box)))
    ensures p.Crop? ==>
      var at := Moved(p, parent.y0, parent.x0).box;
      && Shift(Accepted(p.cells, SupportCrop(support, at)), at.y0, at.x0)
         == Shift(Accepted(tile, SupportCrop(support, parent)), parent.y0, parent.x0)
      && Encodes(Moved(q, p.box.y0, p.box.x0), Rejected(tile, SupportCrop(support, parent)))
    ensures p.Empty? ==>
              Accepted(tile, SupportCrop(support, parent)) == Rejected(tile, SupportCrop(support, parent)) == {}
  {
    hide SupportCrop, Accepted, Shift, Linked, Tight;
    match p
    case Empty =>
      EmptyGate(SupportCrop(support, parent));
    case Crop(box, cells) =>
      var dy, dx, at := box.y0, box.x0, Moved(p, parent.y0, parent.x0).box;
      var near, far := SupportCrop(support, at), SupportCrop(support, parent);
      AcceptedShift(cells, near, dy, dx);
      SameSupport(p, tile, parent, support);
      SupportOnTile(tile, Shift(near, dy, dx), far);
      assert Shift(Accepted(cells, near), dy, dx) == Accepted(tile, far);
      MovedEncodes(q, Rejected(cells, near), dy, dx);
      ShiftMinus(cells, Accepted(cells, near), dy, dx);
      ShiftTwice(Accepted(cells, near), dy, dx, parent.y0, parent.x0);
  }

  lemma {:induction false} EmptyGate(support: set<Cell>)
    ensures Accepted({}, support) == {}
  {
  }

  lemma {:induction false} ShiftMinus(a: set<Cell>, b: set<Cell>, dy: int, dx: int)
    ensures Shift(a - b, dy, dx) == Shift(a, dy, dx) - Shift(b, dy, dx)
    ensures Shift(a + b, dy, dx) == Shift(a, dy, dx) + Shift(b, dy, dx)
  {
    hide Shift, Move;
    forall c
      ensures c in Shift(a - b, dy, dx) <==> c in Shift(a, dy, dx) && c !in Shift(b, dy, dx)
      ensures c in Shift(a + b, dy, dx) <==> c in Shift(a, dy, dx) || c in Shift(b, dy, dx)
    {
      InShift(a - b, dy, dx, c);
      InShift(a + b, dy, dx, c);
      InShift(a, dy, dx, c);
      InShift(b, dy, dx, c);
    }
  }

  // Accumulation

  /** The accumulator after a sequence of OR steps, each under its own lock. */
  function Accumulate(base: set<Cell>, parts: seq<set<Cell>>): set<Cell>
    decreases |parts|
  {
    if parts == [] then base else Accumulate(base + parts[0], parts[1..])
  }

  lemma {:induction false} AccumulateCells(base: set<Cell>, parts: seq<set<Cell>>, c: Cell)
    ensures c in Accumulate(base, parts) <==> c in base || exists p :: p in parts && c in p
    decreases |parts|
  {
    if parts != [] {
      AccumulateCells(base + parts[0], parts[1..], c);
      assert parts == [parts[0]] + parts[1..];
    }
  }

  /** One tile of a slice: its plane and where the parent holds it. */
  datatype Tile = Tile(cells: set<Cell>, parent: Rect)

  ghost function Placed(t: Tile, s: set<Cell>): set<Cell> {
    Shift(s, t.parent.y0, t.parent.x0)
  }

  ghost function MaskPart(t: Tile, mask: set<Cell>): set<Cell> {
    Placed(t, Accepted(t.cells, SupportCrop(mask, t.parent)))
  }

  ghost function BridgePart(t: Tile, mask: set<Cell>, bridge: set<Cell>): set<Cell> {
    Placed(t, Accepted(Rejected(t.cells, SupportCrop(mask, t.parent)), SupportCrop(bridge, t.parent)))
  }

  /** The OR steps of both stages of all tiles, in any order; empty contributions may be skipped. */
  ghost predicate GatesAll(parts: seq<set<Cell>>, tiles: set<Tile>, mask: set<Cell>, bridge: set<Cell>) {
    && (forall p | p in parts :: exists t :: t in tiles && (p == MaskPart(t, mask) || p == BridgePart(t, mask, bridge)))
    && (forall t | t in tiles :: MaskPart(t, mask) == {} || MaskPart(t, mask) in parts)
    && (forall t | t in tiles :: BridgePart(t, mask, bridge) == {} || BridgePart(t, mask, bridge) in parts)
  }

  lemma {:induction false} BothParts(t: Tile, mask: set<Cell>, bridge: set<Cell>)
    ensures Placed(t, Accepted(t.cells, SupportCrop(mask + bridge, t.parent)))
      == MaskPart(t, mask) + BridgePart(t, mask, bridge)
  {
    hide Accepted, Shift;
    var at := t.parent;
    TwoStages(t.cells, SupportCrop(mask, at), SupportCrop(bridge, at));
    assert (mask + bridge) * Cells(at) == mask * Cells(at) + bridge * Cells(at);
    ShiftMinus(mask * Cells(at), bridge * Cells(at), -at.y0, -at.x0);
    ShiftMinus(Accepted(t.cells, SupportCrop(mask, at)),
               Accepted(Rejected(t.cells, SupportCrop(mask, at)), SupportCrop(bridge, at)), at.y0, at.x0);
  }

  /** Whatever the order, the total accumulator gains exactly the whole components, tile by tile,
      that meet the mask or the bridge. */
  lemma {:induction false} TotalIsOrderFree(base: set<Cell>, parts: seq<set<Cell>>, tiles: set<Tile>, mask: set<Cell>,
                                            bridge: set<Cell>, c: Cell)
    requires GatesAll(parts, tiles, mask, bridge)
    ensures c in Accumulate(base, parts) <==>
      c in base || exists t :: t in tiles && c in Placed(t, Accepted(t.cells, SupportCrop(mask + bridge, t.parent)))
  {
    hide MaskPart, BridgePart, Placed, Accepted, SupportCrop, Accumulate;
    AccumulateCells(base, parts, c);
    forall t | t in tiles
      ensures c in Placed(t, Accepted(t.cells, SupportCrop(mask + bridge, t.parent)))
        <==> c in MaskPart(t, mask) || c in BridgePart(t, mask, bridge)
    {
      BothParts(t, mask, bridge);
    }
    if p :| p in parts && c in p {
      var t :| t in tiles && (p == MaskPart(t, mask) || p == BridgePart(t, mask, bridge));
    }
    if t :| t in tiles && (c in MaskPart(t, mask) || c in BridgePart(t, mask, bridge)) {
      assert MaskPart(t, mask) in parts || BridgePart(t, mask, bridge) in parts;
    }
  }
}
