/** Tight bounds per output slice, grown crop by crop. */
module SparseBounds {
  /** A foreground voxel of the output: slice, row, column. */
  datatype Voxel = Voxel(t: int, y: int, x: int)

  datatype Box = Box(y0: int, x0: int, y1: int, x1: int)

  function Min(a: int, b: int): int {
    if a <= b then a else b
  }

  function Max(a: int, b: int): int {
    if a >= b then a else b
  }

  function Merge(a: Box, b: Box): Box {
    Box(Min(a.y0, b.y0), Min(a.x0, b.x0), Max(a.y1, b.y1), Max(a.x1, b.x1))
  }

  predicate Contains(b: Box, v: Voxel) {
    b.y0 <= v.y < b.y1 && b.x0 <= v.x < b.x1
  }

  ghost predicate Top(s: set<Voxel>, t: int, y: int) {
    exists v :: v in s && v.t == t && v.y == y
  }

  ghost predicate Side(s: set<Voxel>, t: int, x: int) {
    exists v :: v in s && v.t == t && v.x == x
  }

  ghost predicate Has(s: set<Voxel>, t: int) {
    exists v :: v in s && v.t == t
  }

  /** `b` is the tight box of the voxels of slice `t`, or the initial box when there are none. */
  ghost predicate IsBounds(b: Box, s: set<Voxel>, t: int, h: int, w: int) {
    && (forall v | v in s && v.t == t :: Contains(b, v))
    && (if Has(s, t) then Top(s, t, b.y0) && Top(s, t, b.y1 - 1) && Side(s, t, b.x0) && Side(s, t, b.x1 - 1)
        else b == Box(h, w, 0, 0))
  }

  ghost predicate InPlane(s: set<Voxel>, h: int, w: int) {
    forall v | v in s :: 0 <= v.y < h && 0 <= v.x < w
  }

  lemma {:induction false} MergeIsBounds(a: Box, b: Box, r: set<Voxel>, s: set<Voxel>, t: int, h: int, w: int)
    requires IsBounds(a, r, t, h, w) && IsBounds(b, s, t, h, w) && InPlane(r, h, w) && InPlane(s, h, w)
    requires Has(s, t)
    ensures IsBounds(Merge(a, b), r + s, t, h, w)
  {
    MoreTouches(r, s, t);
    var v :| v in s && v.t == t;
    assert v in r + s;
    if Has(r, t) {
      var u :| u in r && u.t == t;
    } else {
      var p :| p in s && p.t == t && p.y == b.y0;
      var q :| q in s && q.t == t && q.x == b.x0;
    }
  }

  lemma {:induction false} MoreTouches(r: set<Voxel>, s: set<Voxel>, t: int)
    ensures forall y :: Top(r, t, y) || Top(s, t, y) ==> Top(r + s, t, y)
    ensures forall x :: Side(r, t, x) || Side(s, t, x) ==> Side(r + s, t, x)
  {
    forall v | v in r || v in s
      ensures v in r + s
    {
    }
  }

  lemma {:induction false} SameBounds(b: Box, r: set<Voxel>, s: set<Voxel>, t: int, h: int, w: int)
    requires IsBounds(b, r, t, h, w) && !Has(s, t)
    ensures IsBounds(b, r + s, t, h, w)
  {
    MoreTouches(r, s, t);
    if v :| v in r + s && v.t == t {
      assert v in r;
    }
  }

  lemma {:induction false} BoundsUnique(a: Box, b: Box, s: set<Voxel>, t: int, h: int, w: int)
    requires IsBounds(a, s, t, h, w) && IsBounds(b, s, t, h, w)
    ensures a == b
  {
    if Has(s, t) {
      BoundsWithin(a, b, s, t, h, w);
      BoundsWithin(b, a, s, t, h, w);
    }
  }

  lemma {:induction false} BoundsWithin(a: Box, b: Box, s: set<Voxel>, t: int, h: int, w: int)
    requires IsBounds(a, s, t, h, w) && IsBounds(b, s, t, h, w) && Has(s, t)
    ensures b.y0 <= a.y0 && b.x0 <= a.x0 && a.y1 <= b.y1 && a.x1 <= b.x1
  {
    var p :| p in s && p.t == t && p.y == a.y0;
    var q :| q in s && q.t == t && q.y == a.y1 - 1;
    var u :| u in s && u.t == t && u.x == a.x0;
    var v :| v in s && v.t == t && v.x == a.x1 - 1;
  }

  lemma {:induction false} BoundsInPlane(b: Box, s: set<Voxel>, t: int, h: int, w: int)
    requires IsBounds(b, s, t, h, w) && InPlane(s, h, w) && Has(s, t)
    ensures 0 <= b.y0 < b.y1 <= h && 0 <= b.x0 < b.x1 <= w
  {
    var p :| p in s && p.t == t && p.y == b.y0;
    var q :| q in s && q.t == t && q.y == b.y1 - 1;
    var u :| u in s && u.t == t && u.x == b.x0;
    var v :| v in s && v.t == t && v.x == b.x1 - 1;
  }

  // One decoded crop

  /** Where pixel (`row`, `col`) of source slice `z` goes: sagittal slices become rows of the
      output, coronal slices its columns; the source row is the output slice. */
  function Target(coronal: bool, z: int, row: int, col: int): Voxel {
    if coronal then Voxel(row, col, z) else Voxel(row, z, col)
  }

  ghost function RowVoxels(crop: seq<seq<bool>>, row: int, upto: int, z: int, firstT: int, firstX: int,
        coronal: bool): set<Voxel>
    requires 0 <= row < |crop| && 0 <= upto <= |crop[row]|
  {
    set col | 0 <= col < upto && crop[row][col] :: Target(coronal, z, firstT + row, firstX + col)
  }

  ghost function CropVoxels(crop: seq<seq<bool>>, rows: int, z: int, firstT: int, firstX: int,
        coronal: bool): set<Voxel>
    requires 0 <= rows <= |crop|
  {
    set row, v | 0 <= row < rows && v in RowVoxels(crop, row, |crop[row]|, z, firstT, firstX, coronal) :: v
  }

  lemma {:induction false} RowGrows(crop: seq<seq<bool>>, row: int, col: int, z: int, firstT: int, firstX: int,
        coronal: bool)
    requires 0 <= row < |crop| && 0 <= col < |crop[row]|
    ensures var v := Target(coronal, z, firstT + row, firstX + col);
      var r := RowVoxels(crop, row, col, z, firstT, firstX, coronal);
      && RowVoxels(crop, row, col + 1, z, firstT, firstX, coronal) == (if crop[row][col] then r + {v} else r)
      && v !in r
  {
  }

  /** `left` and `right` are the first and the last set pixel among the first `upto`. */
  ghost predicate Spans(pixels: seq<bool>, upto: int, left: int, right: int) {
    && 0 <= left <= right < upto <= |pixels| && pixels[left] && pixels[right]
    && forall col | 0 <= col < upto && pixels[col] :: left <= col <= right
  }

  /** The scan of one row: how many pixels are set, the first and the last of them. */
  method ScanRow(crop: seq<seq<bool>>, row: nat, ghost z: int, ghost firstT: int, ghost firstX: int,
        ghost coronal: bool)
    returns (left: int, right: int, count: nat)
    requires row < |crop|
    ensures count == |RowVoxels(crop, row, |crop[row]|, z, firstT, firstX, coronal)|
    ensures right < 0 <==> forall col | 0 <= col < |crop[row]| :: !crop[row][col]
    ensures right >= 0 ==> Spans(crop[row], |crop[row]|, left, right)
  {
    hide RowVoxels;
    left, right, count := |crop[row]|, -1, 0;
    NoPixels(crop, row, z, firstT, firstX, coronal);
    for col := 0 to |crop[row]|
      invariant count == |RowVoxels(crop, row, col, z, firstT, firstX, coronal)|
      invariant right < 0 ==> left == |crop[row]| && forall c | 0 <= c < col :: !crop[row][c]
      invariant right >= 0 ==> Spans(crop[row], col, left, right)
    {
      RowGrows(crop, row, col, z, firstT, firstX, coronal);
      if crop[row][col] {
        left := Min(left, col);
        right := col;
        count := count + 1;
      }
    }
  }

  lemma {:induction false} NoPixels(crop: seq<seq<bool>>, row: nat, z: int, firstT: int, firstX: int, coronal: bool)
    requires row < |crop|
    ensures RowVoxels(crop, row, 0, z, firstT, firstX, coronal) == {}
  {
  }

  function RowBox(z: int, left: int, right: int, coronal: bool): Box {
    if coronal then Box(left, z, right + 1, z + 1) else Box(z, left, z + 1, right + 1)
  }

  lemma {:induction false} RowIsBounded(crop: seq<seq<bool>>, row: nat, left: int, right: int, z: int, firstT: int,
                                        firstX: int, coronal: bool, h: int, w: int)
    requires row < |crop| && Spans(crop[row], |crop[row]|, left, right)
    ensures var s := RowVoxels(crop, row, |crop[row]|, z, firstT, firstX, coronal);
      Has(s, firstT + row) && IsBounds(RowBox(z, firstX + left, firstX + right, coronal), s, firstT + row, h, w)
  {
    var s := RowVoxels(crop, row, |crop[row]|, z, firstT, firstX, coronal);
    assert Target(coronal, z, firstT + row, firstX + left) in s;
    assert Target(coronal, z, firstT + row, firstX + right) in s;
  }

  lemma {:induction false} VoxelSize(a: set<Voxel>, b: set<Voxel>)
    requires a !! b
    ensures |a + b| == |a| + |b|
  {
    if v :| v in a {
      VoxelSize(a - {v}, b);
      assert a + b - {v} == (a - {v}) + b;
    } else {
      assert a + b == b;
    }
  }

  lemma {:induction false} CropGrows(crop: seq<seq<bool>>, row: nat, z: int, firstT: int, firstX: int, coronal: bool)
    requires row < |crop|
    ensures var r := RowVoxels(crop, row, |crop[row]|, z, firstT, firstX, coronal);
      var s := CropVoxels(crop, row, z, firstT, firstX, coronal);
      && CropVoxels(crop, row + 1, z, firstT, firstX, coronal) == s + r
      && |s + r| == |s| + |r|
  {
    var r := RowVoxels(crop, row, |crop[row]|, z, firstT, firstX, coronal);
    var s := CropVoxels(crop, row, z, firstT, firstX, coronal);
    forall v | v in s
      ensures v !in r
    {
      var k :| 0 <= k < row && v in RowVoxels(crop, k, |crop[k]|, z, firstT, firstX, coronal);
    }
    VoxelSize(s, r);
  }

  /** A crop whose pixels all land in the output plane. */
  ghost predicate Lands(crop: seq<seq<bool>>, z: int, firstT: int, firstX: int, coronal: bool, depth: int, h: int,
        w: int) {
    && 0 <= firstT && firstT + |crop| <= depth && 0 <= firstX && 0 <= z < (if coronal then w else h)
    && forall row | 0 <= row < |crop| :: firstX + |crop[row]| <= (if coronal then h else w)
  }

  /** Every slice's box is the bounds of the voxels seen. */
  ghost predicate Bounded(bounds: seq<Box>, s: set<Voxel>, h: int, w: int) {
    forall t | 0 <= t < |bounds| :: IsBounds(bounds[t], s, t, h, w)
  }

  lemma {:induction false} RowKeepsBounds(bounds: seq<Box>, seen: set<Voxel>, b: Box, r: set<Voxel>, t: int, h: int,
        w: int)
    requires Bounded(bounds, seen, h, w) && InPlane(seen, h, w) && InPlane(r, h, w) && 0 <= t < |bounds|
    requires Has(r, t) && IsBounds(b, r, t, h, w) && forall v | v in r :: v.t == t
    ensures Bounded(bounds[t := Merge(bounds[t], b)], seen + r, h, w)
  {
    var next := bounds[t := Merge(bounds[t], b)];
    forall u | 0 <= u < |next|
      ensures IsBounds(next[u], seen + r, u, h, w)
    {
      if u == t {
        MergeIsBounds(bounds[t], b, seen, r, t, h, w);
      } else {
        SameBounds(bounds[u], seen, r, u, h, w);
      }
    }
  }

  /** Grows the bounds by one decoded crop and counts its foreground. */
  method AccumulateBounds(crop: seq<seq<bool>>, z: int, firstT: int, firstX: int, coronal: bool, bounds: array<Box>,
                          ghost seen: set<Voxel>, ghost h: int, ghost w: int)
    returns (count: nat)
    requires Lands(crop, z, firstT, firstX, coronal, bounds.Length, h, w)
    requires Bounded(bounds[..], seen, h, w) && InPlane(seen, h, w)
    modifies bounds
    ensures Bounded(bounds[..], seen + CropVoxels(crop, |crop|, z, firstT, firstX, coronal), h, w)
    ensures InPlane(seen + CropVoxels(crop, |crop|, z, firstT, firstX, coronal), h, w)
    ensures count == |CropVoxels(crop, |crop|, z, firstT, firstX, coronal)|
  {
    hide CropVoxels, RowVoxels, IsBounds, Bounded, Has, Merge;
    count := 0;
    NoRows(crop, z, firstT, firstX, coronal);
    ghost var got := seen;
    assert got == seen + CropVoxels(crop, 0, z, firstT, firstX, coronal);
    for row := 0 to |crop|
      invariant got == seen + CropVoxels(crop, row, z, firstT, firstX, coronal)
      invariant Bounded(bounds[..], got, h, w) && InPlane(got, h, w)
      invariant count == |CropVoxels(crop, row, z, firstT, firstX, coronal)|
    {
      var left, right, found := ScanRow(crop, row, z, firstT, firstX, coronal);
      ghost var r := RowVoxels(crop, row, |crop[row]|, z, firstT, firstX, coronal);
      RowLands(crop, row, z, firstT, firstX, coronal, bounds.Length, h, w);
      CropGrows(crop, row, z, firstT, firstX, coronal);
      assert seen + (CropVoxels(crop, row, z, firstT, firstX, coronal) + r) == got + r;
      count := count + found;
      if right < 0 {
        RowIsBlank(crop, row, z, firstT, firstX, coronal);
        assert got + r == got;
      } else {
        var t := firstT + row;
        RowIsBounded(crop, row, left, right, z, firstT, firstX, coronal, h, w);
        RowKeepsBounds(bounds[..], got, RowBox(z, firstX + left, firstX + right, coronal), r, t, h, w);
        bounds[t] := Merge(bounds[t], RowBox(z, firstX + left, firstX + right, coronal));
      }
      got := got + r;
    }
  }

  lemma {:induction false} NoRows(crop: seq<seq<bool>>, z: int, firstT: int, firstX: int, coronal: bool)
    ensures CropVoxels(crop, 0, z, firstT, firstX, coronal) == {}
  {
  }

  lemma {:induction false} RowIsBlank(crop: seq<seq<bool>>, row: nat, z: int, firstT: int, firstX: int, coronal: bool)
    requires row < |crop| && forall col | 0 <= col < |crop[row]| :: !crop[row][col]
    ensures RowVoxels(crop, row, |crop[row]|, z, firstT, firstX, coronal) == {}
  {
  }

  lemma {:induction false} RowLands(crop: seq<seq<bool>>, row: nat, z: int, firstT: int, firstX: int, coronal: bool,
        depth: int, h: int, w: int)
    requires row < |crop| && Lands(crop, z, firstT, firstX, coronal, depth, h, w)
    ensures InPlane(RowVoxels(crop, row, |crop[row]|, z, firstT, firstX, coronal), h, w)
    ensures forall v | v in RowVoxels(crop, row, |crop[row]|, z, firstT, firstX, coronal) :: v.t == firstT + row
  {
  }
}
