/** Putting the crops of a frame back together. */
module ScoreOverlay {
  import opened Options
  import opened ScoreBlocks
  import opened ScoreCapture

  /** A crop as a reader yields it: its box and its scores, zero outside. */
  datatype Tile = Tile(box: Box, scores: Values)

  ghost predicate Yielded(t: Tile) {
    && t.box.y0 <= t.box.y1 && t.box.x0 <= t.box.x1
    && forall y, x | t.scores(y, x) != 0 :: Inside(t.box, y, x)
  }

  function Larger(a: nat, b: nat): nat {
    if a >= b then a else b
  }

  /** The largest score that any crop holds at a pixel. */
  function Overlay(tiles: seq<Tile>, y: int, x: int): nat {
    if tiles == [] then 0
    else Larger(Overlay(tiles[..|tiles| - 1], y, x), tiles[|tiles| - 1].scores(y, x))
  }

  lemma {:induction false} OverlayIsLargest(tiles: seq<Tile>, y: int, x: int)
    ensures forall i | 0 <= i < |tiles| :: tiles[i].scores(y, x) <= Overlay(tiles, y, x)
    ensures Overlay(tiles, y, x) == 0 || exists i | 0 <= i < |tiles| :: tiles[i].scores(y, x) == Overlay(tiles, y, x)
  {
    if tiles != [] {
      var last := |tiles| - 1;
      OverlayIsLargest(tiles[..last], y, x);
      forall i | 0 <= i < |tiles|
        ensures tiles[i].scores(y, x) <= Overlay(tiles, y, x)
      {
        assert i < last ==> tiles[..last][i] == tiles[i];
      }
      if i :| 0 <= i < last && tiles[..last][i].scores(y, x) == Overlay(tiles, y, x) {
        assert tiles[i].scores(y, x) == Overlay(tiles, y, x);
      }
    }
  }

  // The cut of a plane, put back together

  function Scored(scores: Values): Plane {
    (y, x) => scores(y, x) != 0
  }

  function TileOf(scores: Values, b: Box): Tile {
    Tile(b, (y, x) => if Inside(b, y, x) then scores(y, x) else 0)
  }

  function TilesOf(scores: Values, boxes: seq<Box>): seq<Tile> {
    seq(|boxes|, i requires 0 <= i < |boxes| => TileOf(scores, boxes[i]))
  }

  /** Overlaying the crops of a plane's cut rebuilds the plane, scores and all. */
  lemma {:induction false} OverlayRebuilds(scores: Values, g: Grid, out: seq<Box>, y: int, x: int)
    requires ValidGrid(g) && IsCut(Scored(scores), g, out) && 0 <= y < g.h && 0 <= x < g.w
    ensures Overlay(TilesOf(scores, out), y, x) == scores(y, x)
  {
    hide IsCut;
    var tiles := TilesOf(scores, out);
    OverlayIsLargest(tiles, y, x);
    CutIsLossless(Scored(scores), g, out, y, x);
    if Scored(scores)(y, x) {
      var i :| 0 <= i < |out| && Inside(out[i], y, x);
      assert tiles[i].scores(y, x) == scores(y, x);
    }
  }

  // Assembling

  /** The least box that holds every crop's box. */
  ghost predicate Hull(tiles: seq<Tile>, b: Box) {
    && (forall t | t in tiles :: b.y0 <= t.box.y0 && t.box.y1 <= b.y1 && b.x0 <= t.box.x0 && t.box.x1 <= b.x1)
    && (exists t :: t in tiles && t.box.y0 == b.y0) && (exists t :: t in tiles && t.box.y1 == b.y1)
    && (exists t :: t in tiles && t.box.x0 == b.x0) && (exists t :: t in tiles && t.box.x1 == b.x1)
  }

  method HullOf(tiles: seq<Tile>) returns (b: Box)
    requires tiles != []
    ensures Hull(tiles, b)
  {
    b := tiles[0].box;
    assert tiles[0] in tiles[..1];
    for i := 1 to |tiles|
      invariant Hull(tiles[..i], b)
    {
      HullGrows(tiles[..i], b, tiles[i]);
      assert tiles[..i] + [tiles[i]] == tiles[..i + 1];
      b := Widen(b, tiles[i].box);
    }
    assert tiles[..|tiles|] == tiles;
  }

  function Widen(a: Box, b: Box): Box {
    Box(if b.y0 < a.y0 then b.y0 else a.y0, if b.y1 > a.y1 then b.y1 else a.y1,
        if b.x0 < a.x0 then b.x0 else a.x0, if b.x1 > a.x1 then b.x1 else a.x1)
  }

  lemma {:induction false} HullGrows(tiles: seq<Tile>, b: Box, t: Tile)
    requires Hull(tiles, b)
    ensures Hull(tiles + [t], Widen(b, t.box))
  {
    var all := tiles + [t];
    assert t in all && forall u | u in tiles :: u in all;
    var p :| p in tiles && p.box.y0 == b.y0;
    var q :| q in tiles && q.box.y1 == b.y1;
    var r :| r in tiles && r.box.x0 == b.x0;
    var s :| s in tiles && s.box.x1 == b.x1;
    assert p in all && q in all && r in all && s in all;
  }

  lemma {:induction false} HullOpens(tiles: seq<Tile>, b: Box)
    requires tiles != [] && Hull(tiles, b) && forall t | t in tiles :: Yielded(t)
    ensures b.y0 <= b.y1 && b.x0 <= b.x1
  {
    assert Yielded(tiles[0]);
  }

  /** One crop over the result, keeping the larger score. */
  method MaximumInto(result: array2<nat>, b: Box, t: Tile)
    requires Yielded(t) && result.Length0 == b.y1 - b.y0 && result.Length1 == b.x1 - b.x0
    requires b.y0 <= t.box.y0 && t.box.y1 <= b.y1 && b.x0 <= t.box.x0 && t.box.x1 <= b.x1
    modifies result
    ensures forall i, j | 0 <= i < result.Length0 && 0 <= j < result.Length1 ::
              result[i, j] == Larger(old(result[i, j]), t.scores(b.y0 + i, b.x0 + j))
  {
    for y := t.box.y0 to t.box.y1
      invariant forall i, j | 0 <= i < result.Length0 && 0 <= j < result.Length1 ::
          result[i, j] == if b.y0 + i < y then Larger(old(result[i, j]), t.scores(b.y0 + i, b.x0 + j))
              else old(result[i, j])
    {
      var row := y - b.y0;
      for x := t.box.x0 to t.box.x1
        invariant forall i, j | 0 <= i < result.Length0 && 0 <= j < result.Length1 && i != row ::
            result[i, j] == if b.y0 + i < y then Larger(old(result[i, j]), t.scores(b.y0 + i, b.x0 + j))
                else old(result[i, j])
        invariant forall j | 0 <= j < result.Length1 ::
            result[row, j] == if b.x0 + j < x then Larger(old(result[row, j]), t.scores(y, b.x0 + j))
                else old(result[row, j])
      {
        result[row, x - b.x0] := Larger(result[row, x - b.x0], t.scores(y, x));
      }
    }
  }

  /** Every crop in turn over a plane of zeros. */
  method Paste(tiles: seq<Tile>, b: Box) returns (result: array2<nat>)
    requires b.y0 <= b.y1 && b.x0 <= b.x1 && Hull(tiles, b) && forall t | t in tiles :: Yielded(t)
    ensures fresh(result) && result.Length0 == b.y1 - b.y0 && result.Length1 == b.x1 - b.x0
    ensures forall i, j | 0 <= i < result.Length0 && 0 <= j < result.Length1 ::
              result[i, j] == Overlay(tiles, b.y0 + i, b.x0 + j)
  {
    hide Yielded;
    result := new nat[b.y1 - b.y0, b.x1 - b.x0]((i, j) => 0);
    for n := 0 to |tiles|
      invariant forall i, j | 0 <= i < result.Length0 && 0 <= j < result.Length1 ::
          result[i, j] == Overlay(tiles[..n], b.y0 + i, b.x0 + j)
    {
      assert tiles[n] in tiles;
      MaximumInto(result, b, tiles[n]);
      assert tiles[..n + 1][..n] == tiles[..n] && tiles[..n + 1][n] == tiles[n];
    }
    assert tiles[..|tiles|] == tiles;
  }

  /** The crops of a frame as one crop: nothing for none, a lone crop as it is, and otherwise the
      overlay on the least box that holds them. */
  method AssembledCrop(tiles: seq<Tile>) returns (box: Option<Box>, result: array2<nat>)
    requires forall t | t in tiles :: Yielded(t)
    ensures box.None? <==> tiles == []
    ensures box.Some? ==>
              && Hull(tiles, box.value)
              && result.Length0 == box.value.y1 - box.value.y0 && result.Length1 == box.value.x1 - box.value.x0
              && (forall i, j | 0 <= i < result.Length0 && 0 <= j < result.Length1 ::
                    result[i, j] == Overlay(tiles, box.value.y0 + i, box.value.x0 + j))
              && (forall y, x | Overlay(tiles, y, x) != 0 :: Inside(box.value, y, x))
  {
    if tiles == [] {
      result := new nat[0, 0];
      return None, result;
    }
    if |tiles| == 1 {
      var t := tiles[0];
      assert tiles[..0] == [] && t in tiles;
      var f := (i: nat, j: nat) => t.scores(t.box.y0 + i, t.box.x0 + j);
      result := new nat[t.box.y1 - t.box.y0, t.box.x1 - t.box.x0](f);
      OverlayInHull(tiles, t.box);
      return Some(t.box), result;
    }
    var b := HullOf(tiles);
    HullOpens(tiles, b);
    hide Hull, Yielded;
    result := Paste(tiles, b);
    OverlayInHull(tiles, b);
    box := Some(b);
  }

  lemma {:induction false} OverlayInHull(tiles: seq<Tile>, b: Box)
    requires Hull(tiles, b) && forall t | t in tiles :: Yielded(t)
    ensures forall y, x | Overlay(tiles, y, x) != 0 :: Inside(b, y, x)
  {
    forall y, x | Overlay(tiles, y, x) != 0
      ensures Inside(b, y, x)
    {
      OverlayIsLargest(tiles, y, x);
      var i :| 0 <= i < |tiles| && tiles[i].scores(y, x) != 0;
      assert tiles[i] in tiles && Inside(tiles[i].box, y, x);
    }
  }
}
