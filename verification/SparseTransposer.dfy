/** The transpose itself: one pass that grows bounds, one that scatters bits. */
module SparseTransposer {
  import opened Options
  import opened SparseBounds
  import opened SparseLayout
  import opened SparseStore
  import opened SparseTranspose

  lemma {:induction false} SlabLands(src: Store, coronal: bool, z: nat, row0: nat, row1: nat)
    requires |src.index| == src.depth && z < src.depth && ValidCrop(src, src.index[z])
    requires row0 <= row1 && src.index[z].y0 + row1 <= src.index[z].y1
    ensures var r := src.index[z];
      Lands(Slab(src, r, row0, row1), z, r.y0 + row0, r.x0, coronal, src.height, OutHeight(src, coronal),
          OutWidth(src, coronal))
  {
  }

  lemma {:induction false} NoneArrived(src: Store, coronal: bool)
    requires |src.index| == src.depth
    ensures Arrived(src, coronal, 0, 0) == {}
  {
    forall v
      ensures v !in Arrived(src, coronal, 0, 0)
    {
      InArrived(src, coronal, 0, 0, v);
    }
  }

  lemma {:induction false} BoundedNone(bounds: seq<Box>, h: int, w: int)
    requires forall t | 0 <= t < |bounds| :: bounds[t] == Box(h, w, 0, 0)
    ensures Bounded(bounds, {}, h, w)
  {
  }

  /** The state of the first pass after the rows before `row` of slice `z`. */
  ghost predicate Surveyed(src: Store, coronal: bool, bounds: seq<Box>, foreground: nat, z: int, row: int) {
    var s := Arrived(src, coronal, z, row);
    && Bounded(bounds, s, OutHeight(src, coronal), OutWidth(src, coronal))
    && InPlane(s, OutHeight(src, coronal), OutWidth(src, coronal))
    && foreground == |s|
  }

  /** The first pass over one slice, slab by slab. */
  method SurveySlice(src: Store, coronal: bool, maxBytes: nat, z: nat, bounds: array<Box>, before: nat)
    returns (foreground: nat)
    requires |src.index| == src.depth && z < src.depth && src.index[z].kind == 1 && ValidCrop(src, src.index[z])
    requires bounds.Length == src.height && Surveyed(src, coronal, bounds[..], before, z, 0)
    modifies bounds
    ensures Surveyed(src, coronal, bounds[..], foreground, z + 1, 0)
  {
    hide Arrived, SlabVoxels, Bounded, CropVoxels;
    var r := src.index[z];
    var rows := r.y1 - r.y0;
    var per := RowsPerSlab(maxBytes, r.x1 - r.x0);
    var row0 := 0;
    foreground := before;
    SliceEnds(src, coronal, z);
    while row0 < rows
      invariant 0 <= row0 <= rows
      invariant Surveyed(src, coronal, bounds[..], foreground, z, r.y0 + row0)
    {
      var row1 := Min(rows, row0 + per);
      ghost var seen := Arrived(src, coronal, z, r.y0 + row0);
      var crop := Slab(src, r, row0, row1);
      SlabLands(src, coronal, z, row0, row1);
      SlabStep(src, coronal, z, row0, row1);
      SlabIsCrop(src, coronal, z, row0, row1);
      VoxelSize(seen, SlabVoxels(src, coronal, z, row0, row1));
      var found := AccumulateBounds(crop, z, r.y0 + row0, r.x0, coronal, bounds, seen,
                                    OutHeight(src, coronal), OutWidth(src, coronal));
      foreground := foreground + found;
      row0 := row1;
    }
  }

  lemma {:induction false} SlabIsCrop(src: Store, coronal: bool, z: nat, row0: nat, row1: nat)
    requires z < |src.index| && ValidCrop(src, src.index[z]) && row0 <= row1
    ensures var r := src.index[z];
      var crop := Slab(src, r, row0, row1);
      SlabVoxels(src, coronal, z, row0, row1) == CropVoxels(crop, |crop|, z, r.y0 + row0, r.x0, coronal)
  {
  }

  /** The first pass; refused when some nonempty slice is not a valid crop. */
  method Survey(src: Store, coronal: bool, maxBytes: nat, bounds: array<Box>) returns (ok: bool, foreground: nat)
    requires |src.index| == src.depth && bounds.Length == src.height
    requires forall t | 0 <= t < bounds.Length ::
             bounds[t] == Box(OutHeight(src, coronal), OutWidth(src, coronal), 0, 0)
    modifies bounds
    ensures ok <==> Readable(src)
    ensures ok ==> Tight(src, coronal, bounds[..]) && foreground == |AllVoxels(src, coronal)|
  {
    hide Arrived, Bounded;
    NoneArrived(src, coronal);
    BoundedNone(bounds[..], OutHeight(src, coronal), OutWidth(src, coronal));
    foreground := 0;
    for z := 0 to src.depth
      invariant Surveyed(src, coronal, bounds[..], foreground, z, 0)
      invariant forall u | 0 <= u < z && src.index[u].kind != 0 ::
                  src.index[u].kind == 1 && ValidCrop(src, src.index[u])
    {
      if src.index[z].kind != 0 {
        if src.index[z].kind != 1 || !ValidCrop(src, src.index[z]) {
          assert src.index[z] in src.index;
          return false, foreground;
        }
        foreground := SurveySlice(src, coronal, maxBytes, z, bounds, foreground);
      } else {
        SliceEnds(src, coronal, z);
      }
    }
    ok := true;
  }

  // The second pass

  /** The offsets array agrees with the layout wherever a voxel can land. */
  ghost predicate Placed(boxes: seq<Box>, offsets: seq<nat>) {
    |offsets| == |boxes| && forall t | 0 <= t < |boxes| && !Blank(boxes[t]) :: offsets[t] == OffsetOf(boxes, t)
  }

  lemma {:induction false} PlaceWritten(boxes: seq<Box>, offsets: seq<nat>, v: Voxel)
    requires Held(boxes, v) && Placed(boxes, offsets)
    ensures var b := boxes[v.t];
      && ByteOf(boxes, v) == offsets[v.t] + Times(v.y - b.y0, (b.x1 - b.x0 + 7) / 8) + (v.x - b.x0) / 8
      && BitOf(boxes, v) == (v.x - b.x0) % 8 < 8
  {
  }

  /** Sets the bit of every foreground pixel of one row. */
  method ScatterRow(crop: seq<seq<bool>>, row: nat, z: nat, firstT: nat, firstX: nat, coronal: bool,
                    boxes: seq<Box>, offsets: seq<nat>, payload: array<bv8>, ghost seen: set<Voxel>)
    requires row < |crop| && firstT + row < |boxes|
    requires Placed(boxes, offsets) && Lit(payload[..], boxes, seen)
    requires AllHeld(boxes, RowVoxels(crop, row, |crop[row]|, z, firstT, firstX, coronal))
    modifies payload
    ensures Lit(payload[..], boxes, seen + RowVoxels(crop, row, |crop[row]|, z, firstT, firstX, coronal))
  {
    hide Lit, RowVoxels, ByteOf, BitOf, Mask, Times, Held, OffsetOf;
    var t := firstT + row;
    NoPixels(crop, row, z, firstT, firstX, coronal);
    ghost var got := seen;
    assert got == seen + RowVoxels(crop, row, 0, z, firstT, firstX, coronal);
    for col := 0 to |crop[row]|
      invariant got == seen + RowVoxels(crop, row, col, z, firstT, firstX, coronal)
      invariant Lit(payload[..], boxes, got)
    {
      RowGrows(crop, row, col, z, firstT, firstX, coronal);
      if crop[row][col] {
        var v := Target(coronal, z, t, firstX + col);
        RowPixel(crop, row, col, z, firstT, firstX, coronal);
        PlaceWritten(boxes, offsets, v);
        HeldBox(boxes, v);
        var b := boxes[t];
        var localX := v.x - b.x0;
        var at := offsets[t] + Times(v.y - b.y0, (b.x1 - b.x0 + 7) / 8) + localX / 8;
        LightOne(payload[..], boxes, got, v);
        LitLength(payload[..], boxes, got);
        payload[at] := payload[at] | Mask(localX % 8);
        got := got + {v};
      }
    }
  }

  lemma {:induction false} HeldBox(boxes: seq<Box>, v: Voxel)
    requires Held(boxes, v)
    ensures 0 <= v.t < |boxes| && Contains(boxes[v.t], v)
  {
  }

  lemma {:induction false} LitLength(payload: seq<bv8>, boxes: seq<Box>, s: set<Voxel>)
    requires Lit(payload, boxes, s)
    ensures |payload| == OffsetOf(boxes, |boxes|)
  {
  }

  lemma {:induction false} RowPixel(crop: seq<seq<bool>>, row: nat, col: nat, z: int, firstT: int, firstX: int,
        coronal: bool)
    requires row < |crop| && col < |crop[row]| && crop[row][col]
    ensures Target(coronal, z, firstT + row, firstX + col) in RowVoxels(crop, row, |crop[row]|, z, firstT, firstX,
            coronal)
  {
  }

  /** Scatters one decoded crop into the payload. */
  method ScatterCrop(crop: seq<seq<bool>>, z: nat, firstT: nat, firstX: nat, coronal: bool,
                     boxes: seq<Box>, offsets: seq<nat>, payload: array<bv8>, ghost seen: set<Voxel>)
    requires firstT + |crop| <= |boxes|
    requires Placed(boxes, offsets) && Lit(payload[..], boxes, seen)
    requires AllHeld(boxes, CropVoxels(crop, |crop|, z, firstT, firstX, coronal))
    modifies payload
    ensures Lit(payload[..], boxes, seen + CropVoxels(crop, |crop|, z, firstT, firstX, coronal))
  {
    hide Lit, RowVoxels, CropVoxels, Placed, AllHeld;
    NoRows(crop, z, firstT, firstX, coronal);
    ghost var got := seen;
    assert got == seen + CropVoxels(crop, 0, z, firstT, firstX, coronal);
    for row := 0 to |crop|
      invariant got == seen + CropVoxels(crop, row, z, firstT, firstX, coronal)
      invariant Lit(payload[..], boxes, got)
    {
      CropGrows(crop, row, z, firstT, firstX, coronal);
      RowHeld(boxes, crop, row, z, firstT, firstX, coronal);
      ghost var r := RowVoxels(crop, row, |crop[row]|, z, firstT, firstX, coronal);
      assert seen + (CropVoxels(crop, row, z, firstT, firstX, coronal) + r) == got + r;
      ScatterRow(crop, row, z, firstT, firstX, coronal, boxes, offsets, payload, got);
      got := got + r;
    }
  }

  lemma {:induction false} RowHeld(boxes: seq<Box>, crop: seq<seq<bool>>, row: nat, z: int, firstT: int, firstX: int,
        coronal: bool)
    requires row < |crop| && AllHeld(boxes, CropVoxels(crop, |crop|, z, firstT, firstX, coronal))
    ensures AllHeld(boxes, RowVoxels(crop, row, |crop[row]|, z, firstT, firstX, coronal))
  {
    forall v | v in RowVoxels(crop, row, |crop[row]|, z, firstT, firstX, coronal)
      ensures Held(boxes, v)
    {
      assert v in CropVoxels(crop, |crop|, z, firstT, firstX, coronal);
    }
  }

  lemma {:induction false} SlabHeld(src: Store, coronal: bool, boxes: seq<Box>, z: nat, row0: nat, row1: nat)
    requires |src.index| == src.depth && z < src.depth && src.index[z].kind == 1 && ValidCrop(src, src.index[z])
    requires row0 <= row1 && Tight(src, coronal, boxes)
    ensures AllHeld(boxes, SlabVoxels(src, coronal, z, row0, row1))
  {
    hide SlabVoxels, Tight, Source, ValidCrop;
    forall v | v in SlabVoxels(src, coronal, z, row0, row1)
      ensures Held(boxes, v)
    {
      InSlab(src, coronal, z, row0, row1, v);
      TightHolds(src, coronal, boxes, v);
    }
  }

  /** The second pass over one slice, with the same slabs. */
  method ScatterSlice(src: Store, coronal: bool, maxBytes: nat, z: nat,
                      boxes: seq<Box>, offsets: seq<nat>, payload: array<bv8>)
    requires |src.index| == src.depth && z < src.depth && src.index[z].kind == 1 && ValidCrop(src, src.index[z])
    requires |boxes| == src.height
    requires Tight(src, coronal, boxes) && Placed(boxes, offsets)
    requires Lit(payload[..], boxes, Arrived(src, coronal, z, 0))
    modifies payload
    ensures Lit(payload[..], boxes, Arrived(src, coronal, z + 1, 0))
  {
    hide Arrived, SlabVoxels, Bounded, CropVoxels, Lit, Placed, Tight, AllHeld;
    var r := src.index[z];
    var rows := r.y1 - r.y0;
    var per := RowsPerSlab(maxBytes, r.x1 - r.x0);
    var row0 := 0;
    SliceEnds(src, coronal, z);
    while row0 < rows
      invariant 0 <= row0 <= rows
      invariant Lit(payload[..], boxes, Arrived(src, coronal, z, r.y0 + row0))
    {
      var row1 := Min(rows, row0 + per);
      var crop := Slab(src, r, row0, row1);
      SlabStep(src, coronal, z, row0, row1);
      SlabIsCrop(src, coronal, z, row0, row1);
      SlabHeld(src, coronal, boxes, z, row0, row1);
      ScatterCrop(crop, z, r.y0 + row0, r.x0, coronal, boxes, offsets, payload, Arrived(src, coronal, z, r.y0 + row0));
      row0 := row1;
    }
  }

  method Scatter(src: Store, coronal: bool, maxBytes: nat, boxes: seq<Box>, offsets: seq<nat>, payload: array<bv8>)
    requires Readable(src) && |boxes| == src.height
    requires Tight(src, coronal, boxes) && Placed(boxes, offsets)
    requires Lit(payload[..], boxes, {})
    modifies payload
    ensures Lit(payload[..], boxes, AllVoxels(src, coronal))
  {
    hide Arrived, Lit, Placed, Tight, ValidCrop;
    NoneArrived(src, coronal);
    for z := 0 to src.depth
      invariant Lit(payload[..], boxes, Arrived(src, coronal, z, 0))
    {
      assert src.index[z] in src.index;
      SliceEnds(src, coronal, z);
      if src.index[z].kind != 0 {
        ScatterSlice(src, coronal, maxBytes, z, boxes, offsets, payload);
      }
    }
  }

  lemma {:induction false} DarkPayload(payload: seq<bv8>, boxes: seq<Box>)
    requires |payload| == OffsetOf(boxes, |boxes|) && forall i | 0 <= i < |payload| :: payload[i] == 0
    ensures Lit(payload, boxes, {})
  {
    hide OffsetOf;
    forall i, k | 0 <= i < |payload| && 0 <= k < 8
      ensures !BitSet(payload[i], k)
    {
      NoBits(k);
    }
  }

  /** Transposes a store, or refuses one whose nonempty slices are not valid crops. */
  method Transpose(src: Store, coronal: bool, maxBytes: nat)
    returns (out: Option<Store>, foreground: nat, ghost boxes: seq<Box>)
    requires |src.index| == src.depth
    ensures out.Some? <==> Readable(src)
    ensures out.Some? ==> Transposed(src, coronal, boxes, out.value)
    ensures out.Some? ==> foreground == |AllVoxels(src, coronal)|
  {
    hide Lit, Bounded, AllVoxels, OffsetOf, Readable;
    var h, w := OutHeight(src, coronal), OutWidth(src, coronal);
    var bounds := new Box[src.height](_ => Box(h, w, 0, 0));
    var ok;
    ok, foreground := Survey(src, coronal, maxBytes, bounds);
    boxes := bounds[..];
    if !ok {
      return None, foreground, boxes;
    }
    TightCorners(src, coronal, boxes);
    var index, offsets, total := LayOut(bounds);
    assert Placed(boxes, offsets[..]);
    var payload := new bv8[total](_ => 0);
    DarkPayload(payload[..], boxes);
    Scatter(src, coronal, maxBytes, bounds[..], offsets[..], payload);
    out := Some(Store(src.height, h, w, true, index, payload[..]));
  }

  lemma {:induction false} TightCorners(src: Store, coronal: bool, boxes: seq<Box>)
    requires |src.index| == src.depth && Tight(src, coronal, boxes)
    ensures forall t | 0 <= t < |boxes| :: 0 <= boxes[t].y0 && 0 <= boxes[t].x0
  {
    hide Tight;
    forall t | 0 <= t < |boxes|
      ensures 0 <= boxes[t].y0 && 0 <= boxes[t].x0
    {
      TightBlank(src, coronal, boxes, t);
    }
  }
}
