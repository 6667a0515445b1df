/** Grid cells, paths between them, and components as reachability. */
module Grid {
  type Cell = (int, int)

  /** The half-open rectangle of rows `y0..y1` and columns `x0..x1`. */
  datatype Rect = Rect(y0: int, y1: int, x0: int, x1: int)

  predicate Inside(r: Rect, c: Cell) {
    r.y0 <= c.0 < r.y1 && r.x0 <= c.1 < r.x1
  }

  function Cells(r: Rect): (s: set<Cell>)
    ensures forall c: Cell :: c in s <==> Inside(r, c)
  {
    set y, x | r.y0 <= y < r.y1 && r.x0 <= x < r.x1 :: (y, x)
  }

  predicate Edge(r: Rect, c: Cell) {
    Inside(r, c) && (c.0 == r.y0 || c.0 == r.y1 - 1 || c.1 == r.x0 || c.1 == r.x1 - 1)
  }

  function Abs(i: int): nat {
    if i < 0 then -i else i
  }

  /** Neighbours: by sides only, or by sides and corners. */
  predicate Adjacent(eight: bool, a: Cell, b: Cell) {
    var dy, dx := Abs(a.0 - b.0), Abs(a.1 - b.1);
    if eight then dy <= 1 && dx <= 1 && a != b else dy + dx == 1
  }

  ghost predicate IsPath(p: seq<Cell>, s: set<Cell>, eight: bool) {
    && p != []
    && (forall i | 0 <= i < |p| :: p[i] in s)
    && (forall i | 0 < i < |p| :: Adjacent(eight, p[i - 1], p[i]))
  }

  ghost predicate Joins(p: seq<Cell>, s: set<Cell>, eight: bool, a: Cell, b: Cell) {
    IsPath(p, s, eight) && p[0] == a && p[|p| - 1] == b
  }

  /** `a` and `b` are in the same component of `s`. */
  ghost predicate Linked(s: set<Cell>, eight: bool, a: Cell, b: Cell) {
    exists p :: Joins(p, s, eight, a, b)
  }

  lemma {:induction false} LinkedSelf(s: set<Cell>, eight: bool, a: Cell)
    requires a in s
    ensures Linked(s, eight, a, a)
  {
    assert Joins([a], s, eight, a, a);
  }

  lemma {:induction false} LinkedStep(s: set<Cell>, eight: bool, a: Cell, b: Cell, c: Cell)
    requires a in s && Adjacent(eight, a, b) && Linked(s, eight, b, c)
    ensures Linked(s, eight, a, c)
  {
    var p :| Joins(p, s, eight, b, c);
    assert Joins([a] + p, s, eight, a, c);
  }

  lemma {:induction false} LinkedBack(s: set<Cell>, eight: bool, a: Cell, b: Cell)
    requires Linked(s, eight, a, b)
    ensures Linked(s, eight, b, a)
  {
    var p :| Joins(p, s, eight, a, b);
    var q := seq(|p|, i requires 0 <= i < |p| => p[|p| - 1 - i]);
    forall i | 0 < i < |q|
      ensures Adjacent(eight, q[i - 1], q[i])
    {
      assert Adjacent(eight, p[|p| - 1 - i], p[|p| - i]);
    }
    assert Joins(q, s, eight, b, a);
  }

  lemma {:induction false} LinkedVia(s: set<Cell>, eight: bool, a: Cell, b: Cell, c: Cell)
    requires Linked(s, eight, a, b) && Linked(s, eight, b, c)
    ensures Linked(s, eight, a, c)
  {
    var p :| Joins(p, s, eight, a, b);
    var q :| Joins(q, s, eight, b, c);
    assert Joins(p + q[1..], s, eight, a, c);
  }

  lemma {:induction false} LinkedMore(s: set<Cell>, t: set<Cell>, eight: bool, a: Cell, b: Cell)
    requires Linked(s, eight, a, b) && s <= t
    ensures Linked(t, eight, a, b)
  {
    var p :| Joins(p, s, eight, a, b);
    assert Joins(p, t, eight, a, b);
  }

  lemma {:induction false} LinkedEnds(s: set<Cell>, eight: bool, a: Cell, b: Cell)
    requires Linked(s, eight, a, b)
    ensures a in s && b in s
  {
  }

  /** `n` is a union of whole components of `m`. */
  ghost predicate Whole(n: set<Cell>, m: set<Cell>, eight: bool) {
    n <= m && forall c, d: Cell | c in n && Linked(m, eight, c, d) :: d in n
  }

  /** Within a union of whole components, components are what they were. */
  lemma {:induction false} LinkedWithin(n: set<Cell>, m: set<Cell>, eight: bool, a: Cell, b: Cell)
    requires Whole(n, m, eight) && a in n
    ensures Linked(n, eight, a, b) <==> Linked(m, eight, a, b)
  {
    if Linked(n, eight, a, b) {
      LinkedMore(n, m, eight, a, b);
    }
    if Linked(m, eight, a, b) {
      var p :| Joins(p, m, eight, a, b);
      forall i | 0 <= i < |p|
        ensures p[i] in n
      {
        assert Joins(p[..i + 1], m, eight, a, p[i]);
      }
      assert Joins(p, n, eight, a, b);
    }
  }

  /** What is left of whole components is whole components. */
  lemma {:induction false} WholeRest(n: set<Cell>, m: set<Cell>, eight: bool)
    requires Whole(n, m, eight)
    ensures Whole(m - n, m, eight)
  {
    forall c, d: Cell | c in m - n && Linked(m, eight, c, d)
      ensures d in m - n
    {
      LinkedEnds(m, eight, c, d);
      LinkedBack(m, eight, c, d);
    }
  }

  /** The components of `m` that contain a cell of `good`. */
  ghost function Keep(m: set<Cell>, eight: bool, good: set<Cell>): (k: set<Cell>)
    ensures k <= m
    ensures forall c: Cell :: c in k <==> c in m && exists d: Cell :: d in good && Linked(m, eight, c, d)
  {
    set c: Cell | c in m && exists d: Cell :: d in good && Linked(m, eight, c, d)
  }

  lemma {:induction false} KeepIsWhole(m: set<Cell>, eight: bool, good: set<Cell>)
    ensures Whole(Keep(m, eight, good), m, eight)
  {
    forall c, e: Cell | c in Keep(m, eight, good) && Linked(m, eight, c, e)
      ensures e in Keep(m, eight, good)
    {
      var d: Cell :| d in good && Linked(m, eight, c, d);
      LinkedEnds(m, eight, c, e);
      LinkedBack(m, eight, c, e);
      LinkedVia(m, eight, e, c, d);
    }
  }

  /** Keeping inside whole components looks at the same components. */
  lemma {:induction false} KeepWithin(n: set<Cell>, m: set<Cell>, eight: bool, good: set<Cell>)
    requires Whole(n, m, eight)
    ensures Keep(n, eight, good) == Keep(m, eight, good) * n
  {
    forall c: Cell | c in n
      ensures c in Keep(n, eight, good) <==> c in Keep(m, eight, good)
    {
      if d: Cell :| d in good && Linked(n, eight, c, d) {
        LinkedWithin(n, m, eight, c, d);
      }
      if d: Cell :| d in good && Linked(m, eight, c, d) {
        LinkedWithin(n, m, eight, c, d);
      }
    }
  }

  /** A labelling of `s`, as a connected-components routine returns it: zero outside,
      equal labels exactly within one component. */
  ghost predicate IsLabelling(labels: map<Cell, nat>, r: Rect, s: set<Cell>, eight: bool) {
    && labels.Keys == Cells(r)
    && s <= Cells(r)
    && (forall c: Cell | c in labels :: labels[c] > 0 <==> c in s)
    && (forall c, d: Cell | c in s && d in s :: labels[c] == labels[d] <==> Linked(s, eight, c, d))
  }

  lemma {:induction false} DisjointSize(a: set<Cell>, b: set<Cell>)
    requires a !! b
    ensures |a + b| == |a| + |b|
  {
    if c :| c in a {
      DisjointSize(a - {c}, b);
      assert a + b - {c} == (a - {c}) + b;
    } else {
      assert a + b == b;
    }
  }
}
