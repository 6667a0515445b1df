/** What filling, cleaning and gating do to neighbouring cells, told on rows and columns. */
module Neighbours {
  // Holes are closed off side by side; components hang together by corners too.

  import opened ComponentFilter
  import opened Grid
  import opened HoleFill
  import opened Options
  import opened TileGate

  predicate ShareSide(a: Cell, b: Cell) {
    (a.0 == b.0 && (a.1 == b.1 + 1 || b.1 == a.1 + 1)) || (a.1 == b.1 && (a.0 == b.0 + 1 || b.0 == a.0 + 1))
  }

  predicate Touch(a: Cell, b: Cell) {
    -1 <= a.0 - b.0 <= 1 && -1 <= a.1 - b.1 <= 1
  }

  // Filling

  /** Background of the border stays open. */
  lemma {:induction false} BorderStaysOpen(r: Rect, fg: set<Cell>, c: Cell)
    requires Inside(r, c) && c !in fg
    requires c.0 == r.y0 || c.0 == r.y1 - 1 || c.1 == r.x0 || c.1 == r.x1 - 1
    ensures c !in Fill(r, fg)
  {
    LinkedSelf(Cells(r) - fg, false, c);
  }

  /** Background cells that share a side are filled together or left open together. */
  lemma {:induction false} SidesFillAlike(r: Rect, fg: set<Cell>, a: Cell, b: Cell)
    requires Inside(r, a) && Inside(r, b) && a !in fg && b !in fg && ShareSide(a, b)
    ensures a in Fill(r, fg) <==> b in Fill(r, fg)
  {
    SidesEscapeAlike(r, fg, a, b);
    SidesEscapeAlike(r, fg, b, a);
  }

  lemma {:induction false} SidesEscapeAlike(r: Rect, fg: set<Cell>, a: Cell, b: Cell)
    requires Inside(r, a) && Inside(r, b) && a !in fg && b !in fg && ShareSide(a, b)
    ensures Escapes(r, fg, b) ==> Escapes(r, fg, a)
  {
    if e: Cell :| Edge(r, e) && Linked(Cells(r) - fg, false, b, e) {
      LinkedStep(Cells(r) - fg, false, a, b, e);
    }
  }

  /** The cells left open are the least set that has the background of the border and, with a cell, the
      background cells beside it: with the two laws above, exactly what is left open. */
  lemma {:induction false} OpenIsLeast(r: Rect, fg: set<Cell>, open: set<Cell>, c: Cell)
    requires forall e: Cell | Inside(r, e) && e !in fg
               && (e.0 == r.y0 || e.0 == r.y1 - 1 || e.1 == r.x0 || e.1 == r.x1 - 1) :: e in open
    requires forall a: Cell, b: Cell | b in open && ShareSide(a, b) && Inside(r, a) && a !in fg :: a in open
    requires Inside(r, c) && c !in Fill(r, fg)
    ensures c in open
  {
    var bg := Cells(r) - fg;
    assert Escapes(r, fg, c);
    var e: Cell :| Edge(r, e) && Linked(bg, false, c, e);
    var p :| Joins(p, bg, false, c, e);
    PathStaysOpen(r, fg, open, p);
  }

  lemma {:induction false} PathStaysOpen(r: Rect, fg: set<Cell>, open: set<Cell>, p: seq<Cell>)
    requires forall a: Cell, b: Cell | b in open && ShareSide(a, b) && Inside(r, a) && a !in fg :: a in open
    requires IsPath(p, Cells(r) - fg, false) && p[|p| - 1] in open
    ensures p[0] in open
  {
    if |p| > 1 {
      RestIsPath(p, Cells(r) - fg, false);
      PathStaysOpen(r, fg, open, p[1..]);
      assert Adjacent(false, p[0], p[1]) && ShareSide(p[0], p[1]);
    }
  }

  lemma {:induction false} RestIsPath(p: seq<Cell>, s: set<Cell>, eight: bool)
    requires IsPath(p, s, eight) && |p| > 1
    ensures IsPath(p[1..], s, eight)
  {
    forall i | 0 < i < |p| - 1
      ensures Adjacent(eight, p[1..][i - 1], p[1..][i])
    {
      assert Adjacent(eight, p[i], p[i + 1]);
    }
  }

  /** A background cell walled in on its four sides is filled, whatever its corners are. */
  lemma {:induction false} WalledIsFilled(r: Rect, fg: set<Cell>, c: Cell)
    requires fg <= Cells(r) && Inside(r, c)
    requires (c.0 - 1, c.1) in fg && (c.0 + 1, c.1) in fg && (c.0, c.1 - 1) in fg && (c.0, c.1 + 1) in fg
    ensures c in Fill(r, fg)
  {
    if c !in Fill(r, fg) {
      forall a: Cell, b: Cell | b != c && ShareSide(a, b) && a !in fg && b !in fg
        ensures a != c
      {
      }
      OpenIsLeast(r, fg, Cells(r) - fg - {c}, c);
    }
  }

  // Cleaning and gating

  lemma {:induction false} TouchingLinked(m: set<Cell>, a: Cell, b: Cell)
    requires a in m && b in m && Touch(a, b)
    ensures Linked(m, true, a, b) && Linked(m, true, b, a)
  {
    LinkedSelf(m, true, b);
    if a != b {
      LinkedStep(m, true, a, b, b);
    }
    LinkedBack(m, true, a, b);
  }

  /** Foreground cells that touch, by a side or a corner, both survive the cleanup or both go. */
  lemma {:induction false} TouchingStayTogether(r: Rect, m: set<Cell>, scores: Option<map<Cell, nat>>, k: Minimums,
        a: Cell, b: Cell)
    requires m <= Cells(r) && a in m && b in m && Touch(a, b)
    ensures a in Cleaned(r, m, scores, k) <==> b in Cleaned(r, m, scores, k)
  {
    hide Cleaned, Meets, Linked;
    TouchingLinked(m, a, b);
    CleanedIsMeeting(r, m, scores, k, a);
    CleanedIsMeeting(r, m, scores, k, b);
    if Meets(r, m, scores, k, a) {
      MeetsTogether(r, m, scores, k, a, b);
    }
    if Meets(r, m, scores, k, b) {
      MeetsTogether(r, m, scores, k, b, a);
    }
  }

  /** What touches nothing is a component of its own. */
  lemma {:induction false} LoneIsAlone(m: set<Cell>, c: Cell, d: Cell)
    requires forall b | b in m && Touch(b, c) :: b == c
    requires Linked(m, true, c, d)
    ensures d == c
  {
    var p :| Joins(p, m, true, c, d);
    if |p| > 1 {
      assert Adjacent(true, p[0], p[1]) && Touch(p[1], c);
    }
  }

  /** A cell that touches no other survives by its own score and its own distance from the background. */
  lemma {:induction false} LoneStandsAlone(r: Rect, m: set<Cell>, scores: Option<map<Cell, nat>>, k: Minimums, c: Cell)
    requires m <= Cells(r) && c in m && forall b | b in m && Touch(b, c) :: b == c
    ensures c in Cleaned(r, m, scores, k) <==>
      && (scores.Some? && k.conf.Some? ==> c in scores.value && scores.value[c] >= k.conf.value)
      && (k.radius2.Some? ==> forall b | b in Cells(r) - m ::
            (c.0 - b.0) * (c.0 - b.0) + (c.1 - b.1) * (c.1 - b.1) >= k.radius2.value)
  {
    CleanedIsMeeting(r, m, scores, k, c);
    LinkedSelf(m, true, c);
    forall d: Cell | Linked(m, true, c, d)
      ensures d == c
    {
      LoneIsAlone(m, c, d);
    }
    if k.radius2.Some? {
      FarIs(r, m, c, k.radius2.value);
    }
    hide Linked, Cleaned, Far;
  }

  lemma {:induction false} SquareIs(a: Cell, b: Cell)
    ensures Square(a, b) == (a.0 - b.0) * (a.0 - b.0) + (a.1 - b.1) * (a.1 - b.1)
  {
  }

  lemma {:induction false} FarIs(r: Rect, m: set<Cell>, c: Cell, r2: nat)
    ensures Far(r, m, c, r2) <==>
      forall b | b in Cells(r) - m :: (c.0 - b.0) * (c.0 - b.0) + (c.1 - b.1) * (c.1 - b.1) >= r2
  {
    hide Square;
    forall b: Cell
      ensures Square(c, b) == (c.0 - b.0) * (c.0 - b.0) + (c.1 - b.1) * (c.1 - b.1)
    {
      SquareIs(c, b);
    }
  }

  /** With a cell, the set has every cell of `m` that touches it. */
  ghost predicate TakesTouching(n: set<Cell>, m: set<Cell>) {
    n <= m && forall a: Cell, b: Cell | b in n && a in m && Touch(a, b) :: a in n
  }

  ghost predicate HoldsMinimums(r: Rect, m: set<Cell>, scores: Option<map<Cell, nat>>, k: Minimums, n: set<Cell>) {
    && (scores.Some? && k.conf.Some? ==> exists d :: d in n && d in scores.value && scores.value[d] >= k.conf.value)
    && (k.radius2.Some? ==> exists d :: d in n && Far(r, m, d, k.radius2.value))
  }

  ghost function PartOf(m: set<Cell>, c: Cell): set<Cell> {
    set d | d in m && Linked(m, true, c, d)
  }

  lemma {:induction false} PartTakesTouching(m: set<Cell>, c: Cell)
    requires c in m
    ensures c in PartOf(m, c) && TakesTouching(PartOf(m, c), m)
    ensures forall n, d | TakesTouching(n, m) && c in n && d in PartOf(m, c) :: d in n
  {
    LinkedSelf(m, true, c);
    forall a: Cell, b: Cell | b in PartOf(m, c) && a in m && Touch(a, b)
      ensures a in PartOf(m, c)
    {
      TouchingLinked(m, b, a);
      LinkedVia(m, true, c, b, a);
    }
    forall n, d | TakesTouching(n, m) && c in n && d in PartOf(m, c)
      ensures d in n
    {
      LinkedBack(m, true, c, d);
      var p :| Joins(p, m, true, d, c);
      PathStaysIn(m, n, p);
    }
  }

  /** A cell survives the cleanup if and only if every set around it that takes along whatever touches it holds
      a cell of the score asked for and a cell of the depth asked for. */
  lemma {:induction false} SurvivesWithItsPart(r: Rect, m: set<Cell>, scores: Option<map<Cell, nat>>, k: Minimums,
        c: Cell)
    requires m <= Cells(r)
    ensures c in Cleaned(r, m, scores, k) <==>
      c in m && forall n | TakesTouching(n, m) && c in n :: HoldsMinimums(r, m, scores, k, n)
  {
    CleanedIsMeeting(r, m, scores, k, c);
    if c in m {
      PartTakesTouching(m, c);
      PartHolds(r, m, scores, k, c);
      hide Cleaned, Meets, Linked, PartOf, TakesTouching, Far;
      if HoldsMinimums(r, m, scores, k, PartOf(m, c)) {
        forall n | TakesTouching(n, m) && c in n
          ensures HoldsMinimums(r, m, scores, k, n)
        {
        }
      }
    }
  }

  lemma {:induction false} PartHolds(r: Rect, m: set<Cell>, scores: Option<map<Cell, nat>>, k: Minimums, c: Cell)
    ensures Meets(r, m, scores, k, c) <==> HoldsMinimums(r, m, scores, k, PartOf(m, c))
  {
    hide Linked, Far;
    forall d: Cell
      ensures Linked(m, true, c, d) <==> d in PartOf(m, c)
    {
      if Linked(m, true, c, d) {
        LinkedEnds(m, true, c, d);
      }
    }
    hide PartOf;
  }

  /** Tile cells that touch are both accepted or both rejected. */
  lemma {:induction false} TouchingGoTogether(tile: set<Cell>, support: set<Cell>, a: Cell, b: Cell)
    requires a in tile && b in tile && Touch(a, b)
    ensures a in Accepted(tile, support) <==> b in Accepted(tile, support)
  {
    TouchingLinked(tile, a, b);
    TouchingAccepted(tile, support, a, b);
    TouchingAccepted(tile, support, b, a);
  }

  lemma {:induction false} TouchingAccepted(tile: set<Cell>, support: set<Cell>, a: Cell, b: Cell)
    requires a in tile && Linked(tile, true, a, b)
    ensures b in Accepted(tile, support) ==> a in Accepted(tile, support)
  {
    if d: Cell :| d in support && Linked(tile, true, b, d) {
      LinkedVia(tile, true, a, b, d);
    }
  }

  /** The accepted cells are the least set that has the tile's own support and, with a cell, the tile cells
      that touch it. */
  lemma {:induction false} AcceptedIsLeast(tile: set<Cell>, support: set<Cell>, n: set<Cell>)
    requires forall a: Cell, b: Cell | b in n && a in tile && Touch(a, b) :: a in n
    requires tile * support <= n
    ensures tile * support <= Accepted(tile, support) <= tile
    ensures Accepted(tile, support) <= n
  {
    forall c | c in tile * support
      ensures c in Accepted(tile, support)
    {
      LinkedSelf(tile, true, c);
    }
    forall c | c in Accepted(tile, support)
      ensures c in n
    {
      var d: Cell :| d in support && Linked(tile, true, c, d);
      LinkedEnds(tile, true, c, d);
      var p :| Joins(p, tile, true, c, d);
      PathStaysIn(tile, n, p);
    }
  }

  lemma {:induction false} PathStaysIn(tile: set<Cell>, n: set<Cell>, p: seq<Cell>)
    requires forall a: Cell, b: Cell | b in n && a in tile && Touch(a, b) :: a in n
    requires IsPath(p, tile, true) && p[|p| - 1] in n
    ensures p[0] in n
  {
    if |p| > 1 {
      RestIsPath(p, tile, true);
      PathStaysIn(tile, n, p[1..]);
      assert Adjacent(true, p[0], p[1]) && Touch(p[0], p[1]);
    }
  }
}
