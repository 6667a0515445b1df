/** Filling enclosed background of a binary plane, whole and cropped to a box. */
module HoleFill {
  import opened Grid
  import opened Options

  /** The background cells that no 4-connected background path joins to the border. */
  ghost function Enclosed(r: Rect, fg: set<Cell>): (s: set<Cell>)
    ensures s <= Cells(r) - fg
  {
    set c | c in Cells(r) - fg && !Escapes(r, fg, c)
  }

  ghost predicate Escapes(r: Rect, fg: set<Cell>, c: Cell) {
    exists e: Cell :: Edge(r, e) && Linked(Cells(r) - fg, false, c, e)
  }

  ghost function Fill(r: Rect, fg: set<Cell>): set<Cell> {
    fg + Enclosed(r, fg)
  }

  // What filling means

  /** The border-connected background is a union of whole background components. */
  lemma {:induction false} OutsideIsWhole(r: Rect, fg: set<Cell>)
    ensures Whole(Cells(r) - Fill(r, fg), Cells(r) - fg, false)
  {
    var bg := Cells(r) - fg;
    forall c: Cell, d: Cell | c in Cells(r) - Fill(r, fg) && Linked(bg, false, c, d)
      ensures d in Cells(r) - Fill(r, fg)
    {
      LinkedEnds(bg, false, c, d);
      var e: Cell :| Edge(r, e) && Linked(bg, false, c, e);
      LinkedBack(bg, false, c, d);
      LinkedVia(bg, false, d, c, e);
      assert Escapes(r, fg, d);
    }
  }

  /** A filled plane has no enclosed background, so filling again changes nothing. */
  lemma {:induction false} FilledHasNoHoles(r: Rect, fg: set<Cell>)
    ensures Enclosed(r, Fill(r, fg)) == {}
    ensures Fill(r, Fill(r, fg)) == Fill(r, fg)
  {
    var bg, open := Cells(r) - fg, Cells(r) - Fill(r, fg);
    OutsideIsWhole(r, fg);
    forall c | c in open
      ensures Escapes(r, Fill(r, fg), c)
    {
      assert Escapes(r, fg, c);
      var e: Cell :| Edge(r, e) && Linked(bg, false, c, e);
      LinkedWithin(open, bg, false, c, e);
      assert Edge(r, e) && Linked(open, false, c, e);
    }
  }

  /** Filling is the least plane above the mask that has no enclosed background. */
  lemma {:induction false} FillIsLeast(r: Rect, fg: set<Cell>, t: set<Cell>)
    requires fg <= t && Enclosed(r, t) == {}
    ensures Fill(r, fg) <= t
  {
    forall c | c in Cells(r) - t
      ensures Escapes(r, fg, c)
    {
      assert c !in Enclosed(r, t);
      var e: Cell :| Edge(r, e) && Linked(Cells(r) - t, false, c, e);
      LinkedMore(Cells(r) - t, Cells(r) - fg, false, c, e);
    }
  }

  // The crop

  function Clamp(v: int, lo: int, hi: int): (c: int) {
    var m := if v < hi then v else hi;
    if m < lo then lo else m
  }

  /** The box the filler works with: the caller's, clamped into the plane, or the measured one. */
  function Box(plane: Rect, known: Option<Rect>, measured: Rect): Rect {
    match known
    case None => measured
    case Some(k) =>
      var y0, x0 := Clamp(k.y0, 0, plane.y1), Clamp(k.x0, 0, plane.x1);
      Rect(y0, Clamp(k.y1, y0, plane.y1), x0, Clamp(k.x1, x0, plane.x1))
  }

  predicate Flat(r: Rect) {
    r.y1 <= r.y0 || r.x1 <= r.x0
  }

  /** One cell of halo on every side, as far as the plane reaches. */
  function Halo(plane: Rect, box: Rect): Rect {
    Rect(if box.y0 - 1 < 0 then 0 else box.y0 - 1,
         if box.y1 + 1 < plane.y1 then box.y1 + 1 else plane.y1,
         if box.x0 - 1 < 0 then 0 else box.x0 - 1,
         if box.x1 + 1 < plane.x1 then box.x1 + 1 else plane.x1)
  }

  ghost function FillInBox(plane: Rect, box: Rect, fg: set<Cell>): set<Cell> {
    if Flat(box) then fg
    else fg + Enclosed(Halo(plane, box), fg * Cells(Halo(plane, box)))
  }

  ghost predicate Holds(plane: Rect, box: Rect, fg: set<Cell>) {
    && plane.y0 == plane.x0 == 0
    && 0 <= box.y0 <= box.y1 <= plane.y1
    && 0 <= box.x0 <= box.x1 <= plane.x1
    && fg <= Cells(box)
  }

  /** Away from the box a straight line of background leads to the border. */
  lemma {:induction false} RayEscapes(plane: Rect, box: Rect, fg: set<Cell>, c: Cell)
    requires Holds(plane, box, fg) && Inside(plane, c) && !Inside(box, c)
    ensures Escapes(plane, fg, c)
    decreases if c.0 < box.y0 then c.0
              else if c.0 >= box.y1 then plane.y1 - c.0
              else if c.1 < box.x0 then c.1
              else plane.x1 - c.1
  {
    var bg := Cells(plane) - fg;
    assert c in bg;
    if Edge(plane, c) {
      LinkedSelf(bg, false, c);
    } else {
      var d := if c.0 < box.y0 then (c.0 - 1, c.1)
               else if c.0 >= box.y1 then (c.0 + 1, c.1)
               else if c.1 < box.x0 then (c.0, c.1 - 1)
               else (c.0, c.1 + 1);
      RayEscapes(plane, box, fg, d);
      var e: Cell :| Edge(plane, e) && Linked(bg, false, d, e);
      LinkedStep(bg, false, c, d, e);
    }
  }

  /** A background path to the plane's border meets the crop's border inside the crop. */
  lemma {:induction false} PathMeetsCropEdge(plane: Rect, crop: Rect, fg: set<Cell>, p: seq<Cell>)
    requires plane.y0 <= crop.y0 && crop.y1 <= plane.y1 && plane.x0 <= crop.x0 && crop.x1 <= plane.x1
    requires IsPath(p, Cells(plane) - fg, false) && Inside(crop, p[0]) && Edge(plane, p[|p| - 1])
    ensures exists e: Cell :: Edge(crop, e) && Linked(Cells(crop) - fg, false, p[0], e)
  {
    var bg := Cells(crop) - fg;
    if Edge(crop, p[0]) {
      LinkedSelf(bg, false, p[0]);
    } else {
      assert Adjacent(false, p[0], p[1]);
      assert IsPath(p[1..], Cells(plane) - fg, false) by {
        forall i | 0 < i < |p[1..]|
          ensures Adjacent(false, p[1..][i - 1], p[1..][i])
        {
          assert Adjacent(false, p[i], p[i + 1]);
        }
      }
      PathMeetsCropEdge(plane, crop, fg, p[1..]);
      var e: Cell :| Edge(crop, e) && Linked(bg, false, p[1], e);
      LinkedStep(bg, false, p[0], p[1], e);
    }
  }

  /** A cell of the crop escapes within the crop exactly when it escapes in the plane. */
  lemma {:induction false} EscapesAlike(plane: Rect, box: Rect, fg: set<Cell>, c: Cell)
    requires Holds(plane, box, fg) && !Flat(box)
    requires Inside(Halo(plane, box), c)
    ensures Escapes(Halo(plane, box), fg, c) <==> Escapes(plane, fg, c)
  {
    var crop := Halo(plane, box);
    if Escapes(crop, fg, c) {
      var e: Cell :| Edge(crop, e) && Linked(Cells(crop) - fg, false, c, e);
      LinkedMore(Cells(crop) - fg, Cells(plane) - fg, false, c, e);
      if !Edge(plane, e) {
        RayEscapes(plane, box, fg, e);
        var f: Cell :| Edge(plane, f) && Linked(Cells(plane) - fg, false, e, f);
        LinkedVia(Cells(plane) - fg, false, c, e, f);
      }
    }
    if Escapes(plane, fg, c) {
      var e: Cell :| Edge(plane, e) && Linked(Cells(plane) - fg, false, c, e);
      var p :| Joins(p, Cells(plane) - fg, false, c, e);
      PathMeetsCropEdge(plane, crop, fg, p);
    }
  }

  /** Filling inside the box and its halo fills the whole plane. */
  lemma {:induction false} CropFillsPlane(plane: Rect, box: Rect, fg: set<Cell>)
    requires Holds(plane, box, fg)
    ensures FillInBox(plane, box, fg) == Fill(plane, fg)
  {
    if Flat(box) {
      forall c | Inside(plane, c)
        ensures Escapes(plane, fg, c)
      {
        RayEscapes(plane, box, fg, c);
      }
    } else {
      var crop := Halo(plane, box);
      assert fg * Cells(crop) == fg;
      forall c | Inside(plane, c) && c !in fg
        ensures c in Enclosed(crop, fg) <==> c in Enclosed(plane, fg)
      {
        if Inside(crop, c) {
          EscapesAlike(plane, box, fg, c);
        } else {
          RayEscapes(plane, box, fg, c);
        }
      }
    }
  }

  /** Any caller's box that, once clamped, still holds the foreground will do. */
  lemma {:induction false} KnownBoxFillsPlane(plane: Rect, k: Rect, measured: Rect, fg: set<Cell>)
    requires plane.y0 == plane.x0 == 0 <= plane.y1 && 0 <= plane.x1
    requires fg <= Cells(plane) && fg <= Cells(k)
    ensures FillInBox(plane, Box(plane, Some(k), measured), fg) == Fill(plane, fg)
  {
    var box := Box(plane, Some(k), measured);
    assert Holds(plane, box, fg);
    CropFillsPlane(plane, box, fg);
  }
}
