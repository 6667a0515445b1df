/** The in-place hole filler over a plane of bytes. */
module HoleFillers {
  import opened Grid
  import opened HoleFill
  import opened Options
  import opened Planes

  ghost predicate TouchesBorder(labels: map<Cell, nat>, r: Rect, l: nat) {
    exists e: Cell :: Edge(r, e) && e in labels && labels[e] == l
  }

  predicate OnRows(r: Rect, c: Cell) {
    Inside(r, c) && (c.0 == r.y0 || c.0 == r.y1 - 1)
  }

  predicate OnColumns(r: Rect, c: Cell) {
    Inside(r, c) && (c.1 == r.x0 || c.1 == r.x1 - 1)
  }

  /** Marks the labels of the first and the last row. */
  method MarkRows(labels: map<Cell, nat>, r: Rect, touches: array<bool>)
    requires labels.Keys == Cells(r) && !Flat(r)
    requires forall c | c in labels :: labels[c] < touches.Length
    requires forall l | 0 <= l < touches.Length && touches[l] :: TouchesBorder(labels, r, l)
    modifies touches
    ensures forall l | 0 <= l < touches.Length && touches[l] :: TouchesBorder(labels, r, l)
    ensures forall c | OnRows(r, c) :: touches[labels[c]]
  {
    for x := r.x0 to r.x1
      invariant forall l | 0 <= l < touches.Length && touches[l] :: TouchesBorder(labels, r, l)
      invariant forall c | OnRows(r, c) && c.1 < x :: touches[labels[c]]
    {
      assert Edge(r, (r.y0, x)) && Edge(r, (r.y1 - 1, x));
      touches[labels[(r.y0, x)]] := true;
      touches[labels[(r.y1 - 1, x)]] := true;
    }
  }

  /** Marks the labels of the first and the last column, and keeps every mark. */
  method MarkColumns(labels: map<Cell, nat>, r: Rect, touches: array<bool>)
    requires labels.Keys == Cells(r) && !Flat(r)
    requires forall c | c in labels :: labels[c] < touches.Length
    requires forall l | 0 <= l < touches.Length && touches[l] :: TouchesBorder(labels, r, l)
    modifies touches
    ensures forall l | 0 <= l < touches.Length && touches[l] :: TouchesBorder(labels, r, l)
    ensures forall l | 0 <= l < touches.Length && old(touches[l]) :: touches[l]
    ensures forall c | OnColumns(r, c) :: touches[labels[c]]
  {
    for y := r.y0 to r.y1
      invariant forall l | 0 <= l < touches.Length && touches[l] :: TouchesBorder(labels, r, l)
      invariant forall l | 0 <= l < touches.Length && old(touches[l]) :: touches[l]
      invariant forall c | OnColumns(r, c) && c.0 < y :: touches[labels[c]]
    {
      assert Edge(r, (y, r.x0)) && Edge(r, (y, r.x1 - 1));
      touches[labels[(y, r.x0)]] := true;
      touches[labels[(y, r.x1 - 1)]] := true;
    }
  }

  /** The labels that occur on the border of the plane. */
  method BorderLabels(labels: map<Cell, nat>, count: nat, r: Rect) returns (touches: array<bool>)
    requires labels.Keys == Cells(r) && !Flat(r)
    requires forall c | c in labels :: labels[c] < count
    ensures fresh(touches) && touches.Length == count
    ensures forall l | 0 <= l < count :: touches[l] <==> TouchesBorder(labels, r, l)
  {
    touches := new bool[count](_ => false);
    MarkRows(labels, r, touches);
    MarkColumns(labels, r, touches);
    forall e: Cell | Edge(r, e)
      ensures e in labels && touches[labels[e]]
    {
      assert OnRows(r, e) || OnColumns(r, e);
    }
  }

  /** A background cell is enclosed exactly when its label misses the border. */
  lemma {:induction false} EnclosedByLabel(labels: map<Cell, nat>, count: nat, r: Rect, fg: set<Cell>, c: Cell)
    requires Labels(labels, count, r, Cells(r) - fg, false) && Inside(r, c)
    ensures c in Enclosed(r, fg) <==> labels[c] > 0 && !TouchesBorder(labels, r, labels[c])
  {
    if c !in fg {
      if e: Cell :| Edge(r, e) && Linked(Cells(r) - fg, false, c, e) {
        LinkedEnds(Cells(r) - fg, false, c, e);
        assert labels[e] == labels[c];
      }
      if e: Cell :| Edge(r, e) && e in labels && labels[e] == labels[c] {
        assert e in Cells(r) - fg;
        assert Linked(Cells(r) - fg, false, c, e);
      }
    }
  }

  /** Writes 1 to every cell of the crop whose label is nonzero and misses the border. */
  method WriteEnclosed(arr: array2<nat>, crop: Rect, labels: map<Cell, nat>, touches: array<bool>,
        ghost holes: set<Cell>)
    requires 0 <= crop.y0 <= crop.y1 <= arr.Length0 && 0 <= crop.x0 <= crop.x1 <= arr.Length1
    requires labels.Keys == Cells(crop) && holes <= Cells(crop)
    requires forall c | c in labels :: labels[c] < touches.Length
    requires forall c | c in labels :: c in holes <==> labels[c] > 0 && !touches[labels[c]]
    modifies arr
    ensures forall y, x | 0 <= y < arr.Length0 && 0 <= x < arr.Length1 ::
      arr[y, x] == if (y, x) in holes then 1 else old(arr[y, x])
  {
    for y := crop.y0 to crop.y1
      invariant forall i, j | 0 <= i < arr.Length0 && 0 <= j < arr.Length1 ::
        arr[i, j] == if (i, j) in holes && i < y then 1 else old(arr[i, j])
    {
      for x := crop.x0 to crop.x1
        invariant forall i, j | 0 <= i < arr.Length0 && 0 <= j < arr.Length1 && i != y ::
          arr[i, j] == if (i, j) in holes && i < y then 1 else old(arr[i, j])
        invariant forall j | 0 <= j < arr.Length1 ::
          arr[y, j] == if (y, j) in holes && j < x then 1 else old(arr[y, j])
      {
        var l := labels[(y, x)];
        if l > 0 && !touches[l] {
          arr[y, x] := 1;
        }
      }
    }
  }

  /** Fills the plane inside its box and halo; written cells become 1 and no other changes. */
  method FillHoles(arr: array2<nat>, known: Option<Rect>, measured: Rect, labels: map<Cell, nat>, count: nat)
    requires Holds(PlaneOf(arr), measured, Foreground(arr))
    requires var box := Box(PlaneOf(arr), known, measured);
      !Flat(box) ==>
        var crop := Halo(PlaneOf(arr), box);
        Labels(labels, count, crop, Cells(crop) - Foreground(arr) * Cells(crop), false)
    modifies arr
    ensures Foreground(arr) == FillInBox(PlaneOf(arr), Box(PlaneOf(arr), known, measured), old(Foreground(arr)))
    ensures (known.Some? ==> old(Foreground(arr)) <= Cells(known.value))
      ==> Foreground(arr) == Fill(PlaneOf(arr), old(Foreground(arr)))
    ensures forall y, x | 0 <= y < arr.Length0 && 0 <= x < arr.Length1 ::
      arr[y, x] == if (y, x) in Foreground(arr) - old(Foreground(arr)) then 1 else old(arr[y, x])
  {
    hide Enclosed, Fill, TouchesBorder;
    ghost var plane, fg := PlaneOf(arr), Foreground(arr);
    var box := Box(PlaneOf(arr), known, measured);
    if known.Some? ==> fg <= Cells(known.value) {
      match known
      case None => CropFillsPlane(plane, measured, fg);
      case Some(k) => KnownBoxFillsPlane(plane, k, measured, fg);
    }
    if Flat(box) {
      return;
    }
    var crop := Halo(PlaneOf(arr), box);
    ghost var inner := fg * Cells(crop);
    var touches := BorderLabels(labels, count, crop);
    ghost var holes := Enclosed(crop, inner);
    forall c | c in labels
      ensures c in holes <==> labels[c] > 0 && !touches[labels[c]]
    {
      EnclosedByLabel(labels, count, crop, inner, c);
    }
    WriteEnclosed(arr, crop, labels, touches, holes);
    forall c: Cell
      ensures c in Foreground(arr) <==> c in fg + holes
    {
      assert c == (c.0, c.1);
    }
  }
}
