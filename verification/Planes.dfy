/** Planes of bytes and the labellings a connected-components routine gives them. */
module Planes {
  import opened Grid

  function PlaneOf(a: array2<nat>): Rect {
    Rect(0, a.Length0, 0, a.Length1)
  }

  ghost function Foreground(a: array2<nat>): (s: set<Cell>)
    reads a
    ensures forall c: Cell :: c in s <==> Inside(PlaneOf(a), c) && a[c.0, c.1] != 0
  {
    set c | c in Cells(PlaneOf(a)) && a[c.0, c.1] != 0
  }

  /** Writes a set of cells over the plane as ones and zeros. */
  method WriteMask(mask: array2<nat>, n: set<Cell>)
    requires n <= Cells(PlaneOf(mask))
    modifies mask
    ensures Foreground(mask) == n
    ensures forall y, x | 0 <= y < mask.Length0 && 0 <= x < mask.Length1 :: mask[y, x] <= 1
  {
    for y := 0 to mask.Length0
      invariant forall i, j | 0 <= i < y && 0 <= j < mask.Length1 :: mask[i, j] == if (i, j) in n then 1 else 0
    {
      for x := 0 to mask.Length1
        invariant forall i, j | 0 <= i < y && 0 <= j < mask.Length1 :: mask[i, j] == if (i, j) in n then 1 else 0
        invariant forall j | 0 <= j < x :: mask[y, j] == if (y, j) in n then 1 else 0
      {
        mask[y, x] := if (y, x) in n then 1 else 0;
      }
    }
    forall c: Cell
      ensures c in Foreground(mask) <==> c in n
    {
      assert c == (c.0, c.1);
    }
  }

  /** What the foreign labelling returns for a set: a label for every cell, zero off the set. */
  ghost predicate Labels(labels: map<Cell, nat>, count: nat, r: Rect, s: set<Cell>, eight: bool) {
    IsLabelling(labels, r, s, eight) && forall c | c in labels :: labels[c] < count
  }

  /** The cells of the plane before row `y`, column `x` in row order. */
  predicate Before(r: Rect, c: Cell, y: int, x: int) {
    Inside(r, c) && (c.0 < y || (c.0 == y && c.1 < x))
  }

  /** `best[l]` is the largest value that label `l` has before the position, or zero. */
  ghost predicate Maxima(labels: map<Cell, nat>, values: map<Cell, nat>, r: Rect, best: seq<nat>, y: int, x: int) {
    && (forall c | Before(r, c, y, x) ::
          c in labels && c in values && labels[c] < |best| && values[c] <= best[labels[c]])
    && (forall l | 0 <= l < |best| && best[l] > 0 :: Reached(labels, values, r, l, best[l], y, x))
  }

  ghost predicate Reached(labels: map<Cell, nat>, values: map<Cell, nat>, r: Rect, l: nat, v: nat, y: int, x: int) {
    exists c :: Before(r, c, y, x) && c in labels && c in values && labels[c] == l && values[c] == v
  }

  /** Moving the position keeps the maxima if no cell lies between. */
  lemma {:induction false} MaximaMove(labels: map<Cell, nat>, values: map<Cell, nat>, r: Rect, best: seq<nat>, y: int,
        x: int, v: int, w: int)
    requires Maxima(labels, values, r, best, y, x)
    requires forall c :: Before(r, c, y, x) <==> Before(r, c, v, w)
    ensures Maxima(labels, values, r, best, v, w)
  {
    forall l | 0 <= l < |best| && best[l] > 0
      ensures Reached(labels, values, r, l, best[l], v, w)
    {
      assert Reached(labels, values, r, l, best[l], y, x);
    }
  }

  lemma {:induction false} MaximaStep(labels: map<Cell, nat>, values: map<Cell, nat>, r: Rect, best: seq<nat>, y: int,
        x: int)
    requires Maxima(labels, values, r, best, y, x) && Inside(r, (y, x))
    requires (y, x) in labels && (y, x) in values && labels[(y, x)] < |best|
    ensures var l, v := labels[(y, x)], values[(y, x)];
      Maxima(labels, values, r, best[l := if v > best[l] then v else best[l]], y, x + 1)
  {
    var l, v := labels[(y, x)], values[(y, x)];
    var next := best[l := if v > best[l] then v else best[l]];
    forall c | Before(r, c, y, x + 1)
      ensures c in labels && c in values && labels[c] < |next| && values[c] <= next[labels[c]]
    {
      assert Before(r, c, y, x) || c == (y, x);
    }
    forall k | 0 <= k < |next| && next[k] > 0
      ensures Reached(labels, values, r, k, next[k], y, x + 1)
    {
      if k == l && v > best[l] {
        assert Before(r, (y, x), y, x + 1);
      } else {
        assert Reached(labels, values, r, k, best[k], y, x);
        var c :| Before(r, c, y, x) && c in labels && c in values && labels[c] == k && values[c] == best[k];
        assert Before(r, c, y, x + 1);
      }
    }
  }

  ghost function Passing(m: set<Cell>, values: map<Cell, nat>, t: nat): set<Cell> {
    set c | c in m && c in values && values[c] >= t
  }

  /** A nonzero label whose maximum reaches the threshold marks a kept component. */
  lemma {:induction false} MaximaKeep(labels: map<Cell, nat>, values: map<Cell, nat>, r: Rect, best: seq<nat>, t: nat,
                                      m: set<Cell>, c: Cell)
    requires Maxima(labels, values, r, best, r.y1, r.x0)
    requires Labels(labels, |best|, r, m, true) && values.Keys == Cells(r) && Inside(r, c)
    requires labels[c] != 0 && best[labels[c]] >= t
    ensures c in Keep(m, true, Passing(m, values, t))
  {
    var l := labels[c];
    if best[l] > 0 {
      assert Reached(labels, values, r, l, best[l], r.y1, r.x0);
      var d :| Before(r, d, r.y1, r.x0) && d in labels && d in values && labels[d] == l && values[d] == best[l];
      assert d in Passing(m, values, t) && Linked(m, true, c, d);
    } else {
      LinkedSelf(m, true, c);
      assert c in Passing(m, values, t);
    }
  }

  /** A kept component's label is nonzero and its maximum reaches the threshold. */
  lemma {:induction false} KeptReaches(labels: map<Cell, nat>, values: map<Cell, nat>, r: Rect, best: seq<nat>, t: nat,
                                       m: set<Cell>, c: Cell)
    requires Maxima(labels, values, r, best, r.y1, r.x0)
    requires Labels(labels, |best|, r, m, true) && values.Keys == Cells(r) && Inside(r, c)
    requires c in Keep(m, true, Passing(m, values, t))
    ensures labels[c] != 0 && best[labels[c]] >= t
  {
    var d: Cell :| d in Passing(m, values, t) && Linked(m, true, c, d);
    assert d in Cells(r);
    assert Before(r, d, r.y1, r.x0);
    assert labels[c] == labels[d];
  }

  /** Per-label maxima over the plane, compared with a threshold: the rule of both component
      filters. The labels that pass are exactly those of the components holding a passing cell. */
  method PassingLabels(labels: map<Cell, nat>, count: nat, values: map<Cell, nat>, r: Rect, t: nat,
                       ghost m: set<Cell>)
    returns (passes: array<bool>)
    requires r.y0 <= r.y1 && r.x0 <= r.x1
    requires Labels(labels, count, r, m, true) && values.Keys == Cells(r)
    ensures fresh(passes) && passes.Length == count
    ensures forall c | Inside(r, c) ::
      passes[labels[c]] <==> c in Keep(m, true, Passing(m, values, t))
  {
    hide Maxima, Keep, Passing;
    var best := new nat[count](_ => 0);
    MaximaNone(labels, values, r, best[..]);
    for y := r.y0 to r.y1
      invariant Maxima(labels, values, r, best[..], y, r.x0)
    {
      for x := r.x0 to r.x1
        invariant Maxima(labels, values, r, best[..], y, x)
      {
        assert (y, x) in Cells(r);
        var l, v := labels[(y, x)], values[(y, x)];
        MaximaStep(labels, values, r, best[..], y, x);
        best[l] := if v > best[l] then v else best[l];
      }
      MaximaMove(labels, values, r, best[..], y, r.x1, y + 1, r.x0);
    }
    passes := new bool[count](l requires 0 <= l < count reads best => l != 0 && best[l] >= t);
    forall c | Inside(r, c)
      ensures passes[labels[c]] <==> c in Keep(m, true, Passing(m, values, t))
    {
      assert c in Cells(r);
      if passes[labels[c]] {
        MaximaKeep(labels, values, r, best[..], t, m, c);
      }
      if c in Keep(m, true, Passing(m, values, t)) {
        KeptReaches(labels, values, r, best[..], t, m, c);
      }
    }
  }

  lemma {:induction false} MaximaNone(labels: map<Cell, nat>, values: map<Cell, nat>, r: Rect, best: seq<nat>)
    requires forall l | 0 <= l < |best| :: best[l] == 0
    ensures Maxima(labels, values, r, best, r.y0, r.x0)
  {
  }
}
