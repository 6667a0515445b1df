/** The two-pass transpose of a sparse store: bounds, then scatter. */
module SparseTranspose {
  import opened SparseBounds
  import opened SparseLayout
  import opened SparseStore

  // The meaning: a permutation of the axes

  function SliceOf(coronal: bool, v: Voxel): int {
    if coronal then v.x else v.y
  }

  function ColumnOf(coronal: bool, v: Voxel): int {
    if coronal then v.y else v.x
  }

  /** The dense axis permutation: what the output holds at `v` is what the source holds at the
      permuted place, its row being the output slice. */
  predicate Source(src: Store, coronal: bool, v: Voxel) {
    At(src, SliceOf(coronal, v), v.t, ColumnOf(coronal, v))
  }

  function OutHeight(src: Store, coronal: bool): nat {
    if coronal then src.width else src.depth
  }

  function OutWidth(src: Store, coronal: bool): nat {
    if coronal then src.depth else src.width
  }

  /** The voxels from source slices before `z`, and from the rows before `row` of slice `z`. */
  predicate Arrives(src: Store, coronal: bool, z: int, row: int, v: Voxel) {
    Source(src, coronal, v) && (SliceOf(coronal, v) < z || (SliceOf(coronal, v) == z && v.t < row))
  }

  ghost function Arrived(src: Store, coronal: bool, z: int, row: int): set<Voxel> {
    set t, y, x | 0 <= t < src.height && 0 <= y < OutHeight(src, coronal) && 0 <= x < OutWidth(src, coronal)
      && Arrives(src, coronal, z, row, Voxel(t, y, x)) :: Voxel(t, y, x)
  }

  lemma {:induction false} InArrived(src: Store, coronal: bool, z: int, row: int, v: Voxel)
    requires |src.index| == src.depth
    ensures v in Arrived(src, coronal, z, row) <==> Arrives(src, coronal, z, row, v)
    ensures v in Arrived(src, coronal, z, row) ==>
      0 <= v.t < src.height && 0 <= v.y < OutHeight(src, coronal) && 0 <= v.x < OutWidth(src, coronal)
  {
    assert v == Voxel(v.t, v.y, v.x);
  }

  ghost function AllVoxels(src: Store, coronal: bool): set<Voxel> {
    Arrived(src, coronal, src.depth, 0)
  }

  // Slabs

  /** Rows `row0..row1` of a slice's box, decoded. */
  function Slab(src: Store, r: Record, row0: nat, row1: nat): (crop: seq<seq<bool>>)
    requires row0 <= row1 && r.x0 <= r.x1
    ensures |crop| == row1 - row0 && forall i | 0 <= i < |crop| :: |crop[i]| == r.x1 - r.x0
  {
    seq(row1 - row0, i requires 0 <= i =>
      seq(r.x1 - r.x0, c requires 0 <= c => Pixel(src, r, r.y0 + row0 + i, r.x0 + c)))
  }

  /** As many whole rows as fit the byte limit, and at least one. */
  function RowsPerSlab(maxBytes: nat, cols: nat): (n: nat)
    ensures n >= 1
  {
    var c := if cols < 1 then 1 else cols;
    if maxBytes / c < 1 then 1 else maxBytes / c
  }

  ghost function SlabVoxels(src: Store, coronal: bool, z: nat, row0: nat, row1: nat): set<Voxel>
    requires z < |src.index| && ValidCrop(src, src.index[z]) && row0 <= row1
  {
    var r := src.index[z];
    CropVoxels(Slab(src, r, row0, row1), row1 - row0, z, r.y0 + row0, r.x0, coronal)
  }

  lemma {:induction false} InSlab(src: Store, coronal: bool, z: nat, row0: nat, row1: nat, v: Voxel)
    requires z < |src.index| && src.index[z].kind == 1 && ValidCrop(src, src.index[z]) && row0 <= row1
    ensures v in SlabVoxels(src, coronal, z, row0, row1) <==>
      && SliceOf(coronal, v) == z && Source(src, coronal, v)
      && src.index[z].y0 + row0 <= v.t < src.index[z].y0 + row1
  {
    hide BitSet;
    var r := src.index[z];
    var crop := Slab(src, r, row0, row1);
    var row, col := v.t - r.y0 - row0, ColumnOf(coronal, v) - r.x0;
    if v in SlabVoxels(src, coronal, z, row0, row1) {
      var i :| 0 <= i < row1 - row0 && v in RowVoxels(crop, i, |crop[i]|, z, r.y0 + row0, r.x0, coronal);
      var c :| 0 <= c < |crop[i]| && crop[i][c] && v == Target(coronal, z, r.y0 + row0 + i, r.x0 + c);
    }
    if SliceOf(coronal, v) == z && Source(src, coronal, v) && 0 <= row < row1 - row0 {
      assert crop[row][col];
      assert v == Target(coronal, z, r.y0 + row0 + row, r.x0 + col);
      assert v in RowVoxels(crop, row, |crop[row]|, z, r.y0 + row0, r.x0, coronal);
    }
  }

  /** The next slab brings exactly the next rows, and none of them twice. */
  lemma {:induction false} SlabStep(src: Store, coronal: bool, z: nat, row0: nat, row1: nat)
    requires |src.index| == src.depth && z < src.depth && src.index[z].kind == 1 && ValidCrop(src, src.index[z])
    requires row0 <= row1
    ensures var y := src.index[z].y0;
      && Arrived(src, coronal, z, y + row1)
          == Arrived(src, coronal, z, y + row0) + SlabVoxels(src, coronal, z, row0, row1)
      && Arrived(src, coronal, z, y + row0) !! SlabVoxels(src, coronal, z, row0, row1)
  {
    hide Arrived, SlabVoxels, Source;
    var y := src.index[z].y0;
    forall v
      ensures v in Arrived(src, coronal, z, y + row1)
        <==> v in Arrived(src, coronal, z, y + row0) || v in SlabVoxels(src, coronal, z, row0, row1)
      ensures !(v in Arrived(src, coronal, z, y + row0) && v in SlabVoxels(src, coronal, z, row0, row1))
    {
      InArrived(src, coronal, z, y + row1, v);
      InArrived(src, coronal, z, y + row0, v);
      InSlab(src, coronal, z, row0, row1, v);
    }
  }

  /** A slice has nothing above its box, and after its box the next slice begins. */
  lemma {:induction false} SliceEnds(src: Store, coronal: bool, z: nat)
    requires |src.index| == src.depth && z < src.depth
    ensures src.index[z].kind == 1 && ValidCrop(src, src.index[z]) ==>
      && Arrived(src, coronal, z, 0) == Arrived(src, coronal, z, src.index[z].y0)
      && Arrived(src, coronal, z, src.index[z].y1) == Arrived(src, coronal, z + 1, 0)
    ensures src.index[z].kind == 0 ==> Arrived(src, coronal, z, 0) == Arrived(src, coronal, z + 1, 0)
  {
    hide Arrived, BitSet;
    var r := src.index[z];
    forall v
      ensures r.kind == 1 && ValidCrop(src, r) ==>
        && (v in Arrived(src, coronal, z, 0) <==> v in Arrived(src, coronal, z, r.y0))
        && (v in Arrived(src, coronal, z, r.y1) <==> v in Arrived(src, coronal, z + 1, 0))
      ensures r.kind == 0 ==> (v in Arrived(src, coronal, z, 0) <==> v in Arrived(src, coronal, z + 1, 0))
    {
      InArrived(src, coronal, z, 0, v);
      InArrived(src, coronal, z, r.y0, v);
      InArrived(src, coronal, z, r.y1, v);
      InArrived(src, coronal, z + 1, 0, v);
    }
  }

  // The result

  ghost predicate Tight(src: Store, coronal: bool, boxes: seq<Box>) {
    |boxes| == src.height && Bounded(boxes, AllVoxels(src, coronal), OutHeight(src, coronal), OutWidth(src, coronal))
  }

  /** `out` is the transpose of `src`: tight boxes, slices laid one after another, and exactly the
      bits of the permuted foreground. */
  ghost predicate Transposed(src: Store, coronal: bool, boxes: seq<Box>, out: Store) {
    && Tight(src, coronal, boxes)
    && out.depth == src.height && out.height == OutHeight(src, coronal) && out.width == OutWidth(src, coronal)
    && out.packed
    && |out.index| == |boxes| && (forall t | 0 <= t < |boxes| :: out.index[t] == RecordOf(boxes, t))
    && Lit(out.payload, boxes, AllVoxels(src, coronal))
  }

  lemma {:induction false} VoxelsFit(src: Store, coronal: bool)
    requires |src.index| == src.depth
    ensures InPlane(AllVoxels(src, coronal), OutHeight(src, coronal), OutWidth(src, coronal))
    ensures forall v | v in AllVoxels(src, coronal) :: 0 <= v.t < src.height
    ensures forall v :: v in AllVoxels(src, coronal) <==> Source(src, coronal, v)
  {
    hide Arrived;
    forall v
      ensures v in AllVoxels(src, coronal) <==> Source(src, coronal, v)
      ensures v in AllVoxels(src, coronal) ==>
        0 <= v.t < src.height && 0 <= v.y < OutHeight(src, coronal) && 0 <= v.x < OutWidth(src, coronal)
    {
      InArrived(src, coronal, src.depth, 0, v);
    }
  }

  lemma {:induction false} TightHolds(src: Store, coronal: bool, boxes: seq<Box>, v: Voxel)
    requires |src.index| == src.depth && Tight(src, coronal, boxes) && Source(src, coronal, v)
    ensures Held(boxes, v)
    ensures 0 <= boxes[v.t].y0 < boxes[v.t].y1 <= OutHeight(src, coronal)
    ensures 0 <= boxes[v.t].x0 < boxes[v.t].x1 <= OutWidth(src, coronal)
  {
    hide AllVoxels, Source;
    VoxelsFit(src, coronal);
    var all := AllVoxels(src, coronal);
    assert IsBounds(boxes[v.t], all, v.t, OutHeight(src, coronal), OutWidth(src, coronal));
    assert Has(all, v.t);
    BoundsInPlane(boxes[v.t], all, v.t, OutHeight(src, coronal), OutWidth(src, coronal));
  }

  /** The box of a slice is blank exactly when the slice has no foreground; otherwise it lies in
      the plane. */
  lemma {:induction false} TightBlank(src: Store, coronal: bool, boxes: seq<Box>, t: nat)
    requires |src.index| == src.depth && Tight(src, coronal, boxes) && t < |boxes|
    ensures boxes[t].y0 >= 0 && boxes[t].x0 >= 0
    ensures Blank(boxes[t]) <==> !Has(AllVoxels(src, coronal), t)
    ensures !Blank(boxes[t]) ==> boxes[t].y1 <= OutHeight(src, coronal) && boxes[t].x1 <= OutWidth(src, coronal)
  {
    hide AllVoxels, Source;
    VoxelsFit(src, coronal);
    var all := AllVoxels(src, coronal);
    assert IsBounds(boxes[t], all, t, OutHeight(src, coronal), OutWidth(src, coronal));
    if Has(all, t) {
      BoundsInPlane(boxes[t], all, t, OutHeight(src, coronal), OutWidth(src, coronal));
    }
  }

  /** The readers accept the transposed store. */
  lemma {:induction false} TransposedReadable(src: Store, coronal: bool, boxes: seq<Box>, out: Store)
    requires |src.index| == src.depth && Transposed(src, coronal, boxes, out)
    ensures Readable(out)
  {
    hide AllVoxels, Lit, Tight;
    forall r | r in out.index && r.kind != 0
      ensures r.kind == 1 && ValidCrop(out, r)
    {
      var t :| 0 <= t < |boxes| && r == RecordOf(boxes, t);
      TransposedRecord(src, coronal, boxes, out, t);
    }
    TightLength(src, coronal, boxes);
  }

  lemma {:induction false} TightLength(src: Store, coronal: bool, boxes: seq<Box>)
    requires Tight(src, coronal, boxes)
    ensures |boxes| == src.height
  {
  }

  lemma {:induction false} TransposedRecord(src: Store, coronal: bool, boxes: seq<Box>, out: Store, t: nat)
    requires |src.index| == src.depth && Transposed(src, coronal, boxes, out)
    requires t < |boxes| && out.index[t].kind != 0
    ensures out.index[t].kind == 1 && ValidCrop(out, out.index[t]) && !Blank(boxes[t])
  {
    hide AllVoxels, LitAt, BitSet, Bounded;
    TightBlank(src, coronal, boxes, t);
    OffsetsGrow(boxes, t + 1, |boxes|);
    assert OffsetOf(boxes, t + 1) == OffsetOf(boxes, t) + Size(boxes[t]);
  }

  /** Decoding the transposed store gives the dense axis permutation, everywhere. */
  lemma {:induction false} TransposeIsPermutation(src: Store, coronal: bool, boxes: seq<Box>, out: Store, v: Voxel)
    requires |src.index| == src.depth && Transposed(src, coronal, boxes, out)
    ensures At(out, v.t, v.y, v.x) <==> Source(src, coronal, v)
  {
    hide AllVoxels, Source, LitAt, BitSet, Bounded, ByteOf, BitOf, OffsetOf;
    VoxelsFit(src, coronal);
    if Source(src, coronal, v) {
      TightHolds(src, coronal, boxes, v);
      assert out.index[v.t].kind == 1;
    }
    if 0 <= v.t < |boxes| && out.index[v.t].kind == 1 && InBox(out.index[v.t], v.y, v.x) {
      TransposedRecord(src, coronal, boxes, out, v.t);
      assert Held(boxes, v);
      TightBlank(src, coronal, boxes, v.t);
      PlaceRead(boxes, out, v, out.index[v.t]);
      ByteInSlice(boxes, v);
      BitRange(boxes, v);
      assert BitSet(out.payload[ByteOf(boxes, v)], BitOf(boxes, v))
        <==> LitAt(boxes, AllVoxels(src, coronal), ByteOf(boxes, v), BitOf(boxes, v));
      LitIsMember(boxes, AllVoxels(src, coronal), v);
    }
  }

  /** The reader looks for a voxel's bit where the writer puts it. */
  lemma {:induction false} PlaceRead(boxes: seq<Box>, out: Store, v: Voxel, r: Record)
    requires Held(boxes, v) && r == RecordOf(boxes, v.t) && r.kind == 1
    requires out.packed && ValidCrop(out, r)
    ensures InBox(r, v.y, v.x) && (v.x - r.x0) % 8 == BitOf(boxes, v)
    ensures Address(out, r, v.y, v.x) == ByteOf(boxes, v)
  {
  }

  lemma {:induction false} LitIsMember(boxes: seq<Box>, s: set<Voxel>, v: Voxel)
    requires Held(boxes, v)
    ensures LitAt(boxes, s, ByteOf(boxes, v), BitOf(boxes, v)) <==> v in s
  {
    if w :| w in s && Held(boxes, w) && ByteOf(boxes, w) == ByteOf(boxes, v) && BitOf(boxes, w) == BitOf(boxes, v) {
      PlacesDistinct(boxes, w, v);
    }
  }

  /** The index and the payload are functions of the source alone. */
  lemma {:induction false} TransposeUnique(src: Store, coronal: bool, a: seq<Box>, x: Store, b: seq<Box>, y: Store)
    requires Transposed(src, coronal, a, x) && Transposed(src, coronal, b, y)
    ensures a == b && x == y
  {
    hide AllVoxels, Lit, IsBounds;
    forall t | 0 <= t < |a|
      ensures a[t] == b[t]
    {
      BoundsUnique(a[t], b[t], AllVoxels(src, coronal), t, OutHeight(src, coronal), OutWidth(src, coronal));
    }
    assert a == b;
    LitUnique(x.payload, y.payload, a, AllVoxels(src, coronal));
    assert x.index == y.index;
  }
}
