/** The dense in-place gate over one slice of a tile and the parent accumulators. */
module TileGateInPlace {
  import opened Grid
  import opened Options
  import opened Planes
  import opened TileGate

  ghost predicate HasLabel(s: set<Cell>, labels: map<Cell, nat>, l: nat) {
    exists d :: d in s && d in labels && labels[d] == l
  }

  /** The labels of the cells that lie on support. */
  method HitLabels(labels: map<Cell, nat>, count: nat, r: Rect, support: set<Cell>) returns (hits: array<bool>)
    requires r.y0 == r.x0 == 0 <= r.y1 && 0 <= r.x1 && labels.Keys == Cells(r)
    requires forall c | c in labels :: labels[c] < count
    ensures fresh(hits) && hits.Length == count
    ensures forall l | 0 <= l < count :: hits[l] <==> HasLabel(support, labels, l)
  {
    hits := new bool[count](_ => false);
    for y := 0 to r.y1
      invariant forall l | 0 <= l < count && hits[l] :: HasLabel(support, labels, l)
      invariant forall d | Before(r, d, y, 0) && d in support :: hits[labels[d]]
    {
      for x := 0 to r.x1
        invariant forall l | 0 <= l < count && hits[l] :: HasLabel(support, labels, l)
        invariant forall d | Before(r, d, y, x) && d in support :: hits[labels[d]]
      {
        assert (y, x) in Cells(r);
        if (y, x) in support {
          hits[labels[(y, x)]] := true;
        }
        forall d | Before(r, d, y, x + 1) && d in support
          ensures hits[labels[d]]
        {
          assert Before(r, d, y, x) || d == (y, x);
        }
      }
      forall d | Before(r, d, y + 1, 0)
        ensures Before(r, d, y, r.x1)
      {
      }
    }
    forall d | d in support && d in labels
      ensures hits[labels[d]]
    {
      assert d in Cells(r) && Before(r, d, r.y1, 0);
    }
  }

  lemma {:induction false} HitsDecide(labels: map<Cell, nat>, count: nat, r: Rect, tile: set<Cell>, support: set<Cell>,
                                      c: Cell)
    requires Labels(labels, count, r, tile, true) && Inside(r, c)
    ensures c in Accepted(tile, support)
      <==> labels[c] != 0 && HasLabel(support, labels, labels[c])
  {
    if d: Cell :| c in tile && d in support && Linked(tile, true, c, d) {
      LinkedEnds(tile, true, c, d);
    }
    if d :| labels[c] != 0 && d in support && d in labels && labels[d] == labels[c] {
      assert c in tile && d in tile;
    }
  }

  function OrOne(v: nat): nat {
    if v % 2 == 0 then v + 1 else v
  }

  /** ORs the cells of a crop-local plane into the destination at the parent offset. */
  method OrCrop(dst: array2<nat>, parent: Rect, cells: set<Cell>)
    requires 0 <= parent.y0 <= parent.y1 <= dst.Length0 && 0 <= parent.x0 <= parent.x1 <= dst.Length1
    requires cells <= Cells(Rect(0, parent.y1 - parent.y0, 0, parent.x1 - parent.x0))
    modifies dst
    ensures Foreground(dst) == old(Foreground(dst)) + Shift(cells, parent.y0, parent.x0)
    ensures forall y, x | 0 <= y < dst.Length0 && 0 <= x < dst.Length1 ::
      dst[y, x] == if (y, x) in Shift(cells, parent.y0, parent.x0)
                   then 2 * (old(dst[y, x]) / 2) + 1 else old(dst[y, x])
  {
    hide OrOne, Shift;
    ghost var put := Shift(cells, parent.y0, parent.x0);
    PutInside(parent, cells);
    for y := parent.y0 to parent.y1
      invariant forall i, j | 0 <= i < dst.Length0 && 0 <= j < dst.Length1 ::
        dst[i, j] == if (i, j) in put && i < y then OrOne(old(dst[i, j])) else old(dst[i, j])
    {
      for x := parent.x0 to parent.x1
        invariant forall i, j | 0 <= i < dst.Length0 && 0 <= j < dst.Length1 && i != y ::
          dst[i, j] == if (i, j) in put && i < y then OrOne(old(dst[i, j])) else old(dst[i, j])
        invariant forall j | 0 <= j < dst.Length1 ::
          dst[y, j] == if (y, j) in put && j < x then OrOne(old(dst[y, j])) else old(dst[y, j])
      {
        InShift(cells, parent.y0, parent.x0, (y, x));
        if (y - parent.y0, x - parent.x0) in cells {
          dst[y, x] := OrOne(dst[y, x]);
        }
      }
    }
    forall c: Cell
      ensures c in Foreground(dst) <==> c in old(Foreground(dst)) + put
    {
      assert c == (c.0, c.1);
      if Inside(PlaneOf(dst), c) {
        OrOneIsSet(old(dst[c.0, c.1]));
      }
    }
    forall y, x | 0 <= y < dst.Length0 && 0 <= x < dst.Length1
      ensures OrOne(old(dst[y, x])) == 2 * (old(dst[y, x]) / 2) + 1
    {
      OrOneIsSet(old(dst[y, x]));
    }
  }

  /** The lowest bit is set and the others stay. */
  lemma {:induction false} OrOneIsSet(v: nat)
    ensures OrOne(v) != 0 && OrOne(v) == 2 * (v / 2) + 1
  {
  }

  lemma {:induction false} PutInside(parent: Rect, cells: set<Cell>)
    requires cells <= Cells(Rect(0, parent.y1 - parent.y0, 0, parent.x1 - parent.x0))
    ensures Shift(cells, parent.y0, parent.x0) <= Cells(parent)
  {
    hide Shift;
    forall c | c in Shift(cells, parent.y0, parent.x0)
      ensures Inside(parent, c)
    {
      InShift(cells, parent.y0, parent.x0, c);
      assert Move(c, -parent.y0, -parent.x0) in Cells(Rect(0, parent.y1 - parent.y0, 0, parent.x1 - parent.x0));
    }
  }

  datatype Gated = Refused | Counted(accepted: nat, rejected: nat)

  /** The shape checks the gate makes before it looks at any voxel. */
  predicate Fits(tile: array2<nat>, total: array2<nat>, category: Option<array2<nat>>, support: Rect, parent: Rect) {
    && 0 <= parent.y0 < parent.y1 <= total.Length0
    && 0 <= parent.x0 < parent.x1 <= total.Length1
    && tile.Length0 == parent.y1 - parent.y0
    && tile.Length1 == parent.x1 - parent.x0
    && PlaneOf(total) == support
    && (category.Some? ==> PlaneOf(category.value) == support)
  }

  /** Splits the tile's foreground by whole components against the support under it. */
  method SplitTile(tile: array2<nat>, support: set<Cell>, parent: Rect, labels: map<Cell, nat>, count: nat)
    returns (accepted: set<Cell>, rejected: set<Cell>)
    requires tile.Length0 == parent.y1 - parent.y0 && tile.Length1 == parent.x1 - parent.x0
    requires Labels(labels, count, PlaneOf(tile), Foreground(tile), true)
    ensures accepted == Accepted(Foreground(tile), SupportCrop(support, parent))
    ensures rejected == Rejected(Foreground(tile), SupportCrop(support, parent))
  {
    hide IsLabelling, Shift, Accepted, SupportCrop, HasLabel;
    var r := PlaneOf(tile);
    ghost var was, crop := Foreground(tile), SupportCrop(support, parent);
    var near := set c | c in Cells(r) && (c.0 + parent.y0, c.1 + parent.x0) in support;
    forall c
      ensures c in near <==> c in crop
    {
      InSupportCrop(support, parent, c);
    }
    assert near == crop;
    LabelKeys(labels, count, r, was);
    var hits := HitLabels(labels, count, r, near);
    accepted := set c | c in Cells(r) && labels[c] != 0 && hits[labels[c]];
    rejected := set c | c in Cells(r) && labels[c] != 0 && !hits[labels[c]];
    forall c | Inside(r, c)
      ensures c in accepted <==> c in Accepted(was, crop)
      ensures c in rejected <==> c in Rejected(was, crop)
    {
      HitsDecide(labels, count, r, was, crop, c);
      LabelMarks(labels, count, r, was, c);
    }
    AcceptedIsPart(was, crop);
  }

  /** Gates one tile slice: whole components that meet the support go into the accumulators, and the
      tile keeps the rejected ones for the next stage or the accepted ones when there is none. */
  method GateTile(tile: array2<nat>, total: array2<nat>, category: Option<array2<nat>>, supportPlane: Rect,
                  support: set<Cell>, parent: Rect, retain: bool, labels: map<Cell, nat>, count: nat)
    returns (gated: Gated)
    requires tile != total && (category.Some? ==> category.value != tile && category.value != total)
    requires Labels(labels, count, PlaneOf(tile), Foreground(tile), true)
    modifies tile, total, if category.Some? then {category.value} else {}
    ensures gated.Refused? <==> !Fits(tile, total, category, supportPlane, parent)
    ensures gated.Counted? <==>
      && 0 <= parent.y0 && parent.y0 < parent.y1 <= total.Length0 && tile.Length0 == parent.y1 - parent.y0
      && 0 <= parent.x0 && parent.x0 < parent.x1 <= total.Length1 && tile.Length1 == parent.x1 - parent.x0
      && supportPlane == Rect(0, total.Length0, 0, total.Length1)
      && (category.Some? ==> category.value.Length0 == total.Length0 && category.value.Length1 == total.Length1)
    ensures gated.Refused? ==> unchanged(tile) && unchanged(total) && (category.Some? ==> unchanged(category.value))
    ensures gated.Counted? ==>
      var was, near := old(Foreground(tile)), SupportCrop(support, parent);
      && Foreground(tile) == (if retain then Rejected(was, near) else Accepted(was, near))
      && Foreground(total) == old(Foreground(total)) + Shift(Accepted(was, near), parent.y0, parent.x0)
      && (category.Some? ==>
        Foreground(category.value) == old(Foreground(category.value)) + Shift(Accepted(was, near), parent.y0,
            parent.x0))
      && gated.accepted == |Accepted(was, near)|
      && gated.accepted + gated.rejected == |was|
  {
    hide IsLabelling, Shift, Accepted, SupportCrop;
    if !Fits(tile, total, category, supportPlane, parent) {
      return Refused;
    }
    ghost var was := Foreground(tile);
    var accepted, rejected := SplitTile(tile, support, parent, labels, count);
    AcceptedIsPart(was, SupportCrop(support, parent));
    VoxelsConserved(was, SupportCrop(support, parent));
    OrCrop(total, parent, accepted);
    if category.Some? {
      OrCrop(category.value, parent, accepted);
    }
    WriteMask(tile, if retain then rejected else accepted);
    gated := Counted(|accepted|, |rejected|);
  }

  lemma {:induction false} LabelKeys(labels: map<Cell, nat>, count: nat, r: Rect, s: set<Cell>)
    requires Labels(labels, count, r, s, true)
    ensures labels.Keys == Cells(r) && s <= Cells(r)
  {
  }

  lemma {:induction false} LabelMarks(labels: map<Cell, nat>, count: nat, r: Rect, s: set<Cell>, c: Cell)
    requires Labels(labels, count, r, s, true) && Inside(r, c)
    ensures c in labels && (labels[c] != 0 <==> c in s)
  {
  }
}
