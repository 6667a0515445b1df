/** The bytes of a sparse store as numbers: what a reader takes from them and what the transpose leaves. */
module SparseBits {
  import opened AxisRanges
  import opened SparseBounds
  import opened SparseLayout
  import opened SparseStore
  import opened SparseTranspose

  function Power(k: nat): (p: nat)
    ensures p > 0
  {
    if k == 0 then 1 else 2 * Power(k - 1)
  }

  lemma {:induction false} LowestBit(b: bv8)
    ensures BitSet(b, 0) <==> b as int % 2 == 1
  {
  }

  lemma {:induction false} BitShifts(b: bv8, k: nat)
    requires 0 < k < 8
    ensures BitSet(b, k) <==> BitSet(b >> 1, k - 1)
  {
  }

  lemma {:induction false} ShiftHalves(b: bv8)
    ensures (b >> 1) as int == b as int / 2
  {
  }

  lemma {:induction false} DivTwice(n: nat, p: nat)
    requires p > 0
    ensures n / 2 / p == n / (2 * p)
  {
    var h := n / 2;
    assert h == (h / p) * p + h % p;
    assert (h / p) * (2 * p) == 2 * ((h / p) * p);
    FloorMeans(n, 2 * p, h / p);
  }

  lemma {:induction false} NextDigit(n: nat, h: nat, k: nat)
    requires k > 0 && h == n / 2
    ensures h / Power(k - 1) == n / Power(k)
  {
    DivTwice(n, Power(k - 1));
  }

  lemma {:induction false} PowerOfNone()
    ensures Power(0) == 1
  {
  }

  /** Bit `k` counts 2^k. */
  lemma {:induction false} BitIsOdd(b: bv8, k: nat)
    requires k < 8
    ensures BitSet(b, k) <==> b as int / Power(k) % 2 == 1
  {
    hide *;
    PowerOfNone();
    if k == 0 {
      LowestBit(b);
    } else {
      BitShifts(b, k);
      ShiftHalves(b);
      BitIsOdd(b >> 1, k - 1);
      NextDigit(b as int, (b >> 1) as int, k);
    }
  }

  // Reading

  /** A nonempty slice is accepted exactly when its box lies in the plane, its sizes are those of the box, its
      rows packed to whole bytes or not packed at all, and its bytes are there. */
  lemma {:induction false} CropAccepted(s: Store, r: Record)
    ensures ValidCrop(s, r) <==>
      && r.y0 < r.y1 <= s.height && r.x0 < r.x1 <= s.width
      && r.payloadNbytes == (r.y1 - r.y0) * (r.x1 - r.x0)
      && r.payloadSize == (r.y1 - r.y0) * (if s.packed then (r.x1 - r.x0 + 7) / 8 else r.x1 - r.x0)
      && r.offset + r.payloadSize <= |s.payload|
  {
  }

  /** A pixel of a packed slice is set exactly when its byte, divided by the power of two of its column within
      the byte, is odd; of a slice that is not packed, when its byte is not zero. */
  lemma {:induction false} PixelIsOdd(s: Store, r: Record, y: nat, x: nat)
    requires r.kind == 1 && ValidCrop(s, r) && r.y0 <= y < r.y1 && r.x0 <= x < r.x1
    ensures var stride, col := if s.packed then (r.x1 - r.x0 + 7) / 8 else r.x1 - r.x0, x - r.x0;
            var at := r.offset + (y - r.y0) * stride + (if s.packed then col / 8 else col);
      && 0 <= at < |s.payload|
      && (Pixel(s, r, y, x) <==>
            if s.packed then s.payload[at] as int / Power(col % 8) % 2 == 1 else s.payload[at] != 0)
  {
    var at := Address(s, r, y, x);
    BitIsOdd(s.payload[at], (x - r.x0) % 8);
    hide BitSet, Power;
  }

  /** Nothing is set outside the box, nor in a slice that is marked empty. */
  lemma {:induction false} OutsideIsBlank(s: Store, r: Record, y: int, x: int)
    requires r.kind != 1 || y < r.y0 || r.y1 <= y || x < r.x0 || r.x1 <= x
    ensures !Pixel(s, r, y, x)
  {
  }

  // Writing

  /** The powers of two of those of the first `k` columns from `x` that the source has set, for output slice
      `t`, row `y`: a coronal output has the source's columns as its rows, a sagittal one its slices. */
  function Sum(src: Store, coronal: bool, t: nat, y: nat, x: nat, k: nat): nat {
    if k == 0 then 0
    else Sum(src, coronal, t, y, x, k - 1) +
         (if (if coronal then At(src, x + k - 1, t, y) else At(src, y, t, x + k - 1)) then Power(k - 1) else 0)
  }

  function SumOfBits(b: bv8, k: nat): nat
    requires k <= 8
  {
    if k == 0 then 0 else SumOfBits(b, k - 1) + (if BitSet(b, k - 1) then Power(k - 1) else 0)
  }

  lemma {:induction false} ModOf(n: nat, d: nat, q: nat, r: nat)
    requires r < d && n == q * d + r
    ensures n / d == q && n % d == r
  {
    FloorMeans(n, d, q);
    assert n == (n / d) * d + n % d;
  }

  lemma {:induction false} ModTwice(n: nat, p: nat)
    requires p > 0
    ensures n % (2 * p) == n % p + p * (n / p % 2)
  {
    var q, r := n / p, n % p;
    var h, e := q / 2, q % 2;
    Doubled(n, p, q, r, h, e);
    ModOf(n, 2 * p, h, r + e * p);
  }

  lemma {:induction false} Doubled(n: nat, p: nat, q: nat, r: nat, h: nat, e: nat)
    requires n == q * p + r && r < p && q == 2 * h + e && e < 2
    ensures n == h * (2 * p) + (r + e * p) && r + e * p < 2 * p
  {
    assert q * p == 2 * (h * p) + e * p;
  }

  /** The lowest `k` bits of a number. */
  function LowBits(n: nat, k: nat): nat {
    if k == 0 then 0 else LowBits(n, k - 1) + Power(k - 1) * (n / Power(k - 1) % 2)
  }

  lemma {:induction false} LowBitsAddUp(n: nat, k: nat)
    ensures LowBits(n, k) == n % Power(k)
  {
    if k > 0 {
      LowBitsAddUp(n, k - 1);
      ModTwice(n, Power(k - 1));
    }
  }

  lemma {:induction false} SumIsLowBits(b: bv8, k: nat)
    requires k <= 8
    ensures SumOfBits(b, k) == LowBits(b as int, k)
  {
    hide BitSet;
    if k > 0 {
      SumIsLowBits(b, k - 1);
      BitIsOdd(b, k - 1);
    }
  }

  lemma {:induction false} ByteIsSum(b: bv8)
    ensures SumOfBits(b, 8) == b as int
  {
    hide *;
    SumIsLowBits(b, 8);
    LowBitsAddUp(b as int, 8);
    AllBits();
    Small(b as int);
  }

  lemma {:induction false} AllBits()
    ensures Power(8) == 256
  {
  }

  lemma {:induction false} Small(n: nat)
    requires n < 256
    ensures n % 256 == n
  {
  }

  /** A bit of the transposed payload inside a slice's part of it is the source's pixel there; the bits behind
      the last column are clear. */
  lemma {:induction false} BitIsSource(src: Store, coronal: bool, boxes: seq<Box>, out: Store, t: nat, y: nat,
        at: nat, j: nat, k: nat)
    requires |src.index| == src.depth && Transposed(src, coronal, boxes, out)
    requires t < |boxes| && !Blank(boxes[t]) && boxes[t].y0 <= y < boxes[t].y1
    requires j < BoxStride(boxes[t]) && k < 8
    requires at == OffsetOf(boxes, t) + Times(y - boxes[t].y0, BoxStride(boxes[t])) + j
    ensures 0 <= at < |out.payload|
    ensures BitSet(out.payload[at], k) <==> Source(src, coronal, Voxel(t, y, boxes[t].x0 + 8 * j + k))
  {
    hide AllVoxels, Source, BitSet, Bounded, OffsetOf;
    var b, v := boxes[t], Voxel(t, y, boxes[t].x0 + 8 * j + k);
    VoxelsFit(src, coronal);
    PayloadReaches(boxes, t, y, at, j);
    assert BitSet(out.payload[at], k) <==> LitAt(boxes, AllVoxels(src, coronal), at, k);
    if Source(src, coronal, v) {
      TightHolds(src, coronal, boxes, v);
      PlaceIs(boxes, v, at, j, k);
      LitIsMember(boxes, AllVoxels(src, coronal), v);
    }
    if w :| w in AllVoxels(src, coronal) && Held(boxes, w) && ByteOf(boxes, w) == at && BitOf(boxes, w) == k {
      LitInSlice(boxes, w, t, y, at, j, k);
    }
  }

  lemma {:induction false} PayloadReaches(boxes: seq<Box>, t: nat, y: nat, at: nat, j: nat)
    requires t < |boxes| && !Blank(boxes[t]) && boxes[t].y0 <= y < boxes[t].y1 && j < BoxStride(boxes[t])
    requires at == OffsetOf(boxes, t) + Times(y - boxes[t].y0, BoxStride(boxes[t])) + j
    ensures OffsetOf(boxes, t) <= at < OffsetOf(boxes, t + 1) <= OffsetOf(boxes, |boxes|)
  {
    var b := boxes[t];
    InBlock(y - b.y0, b.y1 - b.y0, BoxStride(b), j);
    OffsetsGrow(boxes, t + 1, |boxes|);
  }

  lemma {:induction false} PlaceIs(boxes: seq<Box>, v: Voxel, at: nat, j: nat, k: nat)
    requires Held(boxes, v) && k < 8 && v.x == boxes[v.t].x0 + 8 * j + k
    requires at == OffsetOf(boxes, v.t) + Times(v.y - boxes[v.t].y0, BoxStride(boxes[v.t])) + j
    ensures ByteOf(boxes, v) == at && BitOf(boxes, v) == k
  {
    hide OffsetOf, Times;
  }

  /** The voxel of a bit in a slice's part of the payload is in that slice, at that row and column. */
  lemma {:induction false} LitInSlice(boxes: seq<Box>, w: Voxel, t: nat, y: nat, at: nat, j: nat, k: nat)
    requires Held(boxes, w) && ByteOf(boxes, w) == at && BitOf(boxes, w) == k
    requires t < |boxes| && !Blank(boxes[t]) && boxes[t].y0 <= y < boxes[t].y1 && j < BoxStride(boxes[t])
    requires at == OffsetOf(boxes, t) + Times(y - boxes[t].y0, BoxStride(boxes[t])) + j
    ensures w == Voxel(t, y, boxes[t].x0 + 8 * j + k)
  {
    ByteInSlice(boxes, w);
    PayloadReaches(boxes, t, y, at, j);
    hide OffsetOf, Times;
    if w.t < t {
      OffsetsGrow(boxes, w.t + 1, t);
    } else if t < w.t {
      OffsetsGrow(boxes, t + 1, w.t);
    }
    var b := boxes[t];
    assert w.t == t;
    InRow(true, w.x - b.x0, b.x1 - b.x0);
    BlockInjective(w.y - b.y0, y - b.y0, BoxStride(b), (w.x - b.x0) / 8, j);
  }

  /** Where byte `j` of row `y` of the box lies. */
  function ByteAt(r: Record, y: int, j: int): int {
    r.offset + (y - r.y0) * ((r.x1 - r.x0 + 7) / 8) + j
  }

  /** Every byte that the transpose leaves is the sum of the powers of two of its lit columns: for every slice
      with a record, every row of its box and every byte of the row. */
  lemma {:induction false} ByteIsItsColumns(src: Store, coronal: bool, boxes: seq<Box>, out: Store, t: nat, y: nat,
        j: nat)
    requires |src.index| == src.depth && Transposed(src, coronal, boxes, out)
    requires t < |out.index| && out.index[t].kind == 1
    requires var r := out.index[t]; r.y0 <= y < r.y1 && j < (r.x1 - r.x0 + 7) / 8
    ensures var r := out.index[t];
            var at := ByteAt(r, y, j);
      0 <= at < |out.payload| && out.payload[at] as int == Sum(src, coronal, t, y, r.x0 + 8 * j, 8)
  {
    hide *;
    RecordBox(src, coronal, boxes, out, t, y, j);
    var r, b := out.index[t], boxes[t];
    var at := OffsetOf(boxes, t) + Times(y - b.y0, BoxStride(b)) + j;
    BitIsSource(src, coronal, boxes, out, t, y, at, j, 0);
    ByteIsSum(out.payload[at]);
    forall k: nat | k < 8
      ensures BitSet(out.payload[at], k) <==> Source(src, coronal, Voxel(t, y, r.x0 + 8 * j + k))
    {
      BitIsSource(src, coronal, boxes, out, t, y, at, j, k);
    }
    SameSum(src, coronal, t, y, r.x0 + 8 * j, out.payload[at], 8);
  }

  lemma {:induction false} RecordBox(src: Store, coronal: bool, boxes: seq<Box>, out: Store, t: nat, y: nat, j: nat)
    requires |src.index| == src.depth && Transposed(src, coronal, boxes, out)
    requires t < |out.index| && out.index[t].kind == 1 && out.index[t].y0 <= y < out.index[t].y1
    requires j < (out.index[t].x1 - out.index[t].x0 + 7) / 8
    ensures |boxes| == |out.index| && !Blank(boxes[t])
    ensures var r, b := out.index[t], boxes[t];
      && b.y0 <= y < b.y1 && b.x0 == r.x0 && j < BoxStride(b)
      && OffsetOf(boxes, t) + Times(y - b.y0, BoxStride(b)) + j
         == ByteAt(r, y, j)
  {
    hide Lit, Tight, OffsetOf;
  }

  lemma {:induction false} SameSum(src: Store, coronal: bool, t: nat, y: nat, x: nat, b: bv8, n: nat)
    requires n <= 8
    requires forall k: nat | k < 8 :: BitSet(b, k) <==> Source(src, coronal, Voxel(t, y, x + k))
    ensures SumOfBits(b, n) == Sum(src, coronal, t, y, x, n)
  {
    hide BitSet, At, Power;
    if n > 0 {
      SameSum(src, coronal, t, y, x, b, n - 1);
    }
  }
}
