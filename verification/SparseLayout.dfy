/** Where each output voxel's bit lies: slices one after another, rows packed. */
module SparseLayout {
  import opened SparseBounds
  import opened SparseStore

  predicate Blank(b: Box) {
    b.y1 <= b.y0 || b.x1 <= b.x0
  }

  function BoxStride(b: Box): nat {
    if Blank(b) then 0 else Stride(true, b.x1 - b.x0)
  }

  function Size(b: Box): nat {
    if Blank(b) then 0 else Times(b.y1 - b.y0, BoxStride(b))
  }

  /** The payload bytes of the slices before `t`. */
  function OffsetOf(boxes: seq<Box>, t: nat): nat
    requires t <= |boxes|
  {
    if t == 0 then 0 else OffsetOf(boxes, t - 1) + Size(boxes[t - 1])
  }

  lemma {:induction false} OffsetsGrow(boxes: seq<Box>, t: nat, u: nat)
    requires t <= u <= |boxes|
    ensures OffsetOf(boxes, t) <= OffsetOf(boxes, u)
  {
    if t < u {
      OffsetsGrow(boxes, t, u - 1);
    }
  }

  predicate Held(boxes: seq<Box>, v: Voxel) {
    0 <= v.t < |boxes| && Contains(boxes[v.t], v)
  }

  function ByteOf(boxes: seq<Box>, v: Voxel): nat
    requires Held(boxes, v)
  {
    var b := boxes[v.t];
    OffsetOf(boxes, v.t) + Times(v.y - b.y0, BoxStride(b)) + (v.x - b.x0) / 8
  }

  function BitOf(boxes: seq<Box>, v: Voxel): nat
    requires Held(boxes, v)
  {
    (v.x - boxes[v.t].x0) % 8
  }

  /** A voxel's byte lies in its own slice's part of the payload. */
  lemma {:induction false} ByteInSlice(boxes: seq<Box>, v: Voxel)
    requires Held(boxes, v)
    ensures OffsetOf(boxes, v.t) <= ByteOf(boxes, v) < OffsetOf(boxes, v.t + 1) <= OffsetOf(boxes, |boxes|)
  {
    var b := boxes[v.t];
    InRow(true, v.x - b.x0, b.x1 - b.x0);
    InBlock(v.y - b.y0, b.y1 - b.y0, BoxStride(b), (v.x - b.x0) / 8);
    OffsetsGrow(boxes, v.t + 1, |boxes|);
  }

  /** Distinct voxels have distinct (byte, bit) places. */
  lemma {:induction false} PlacesDistinct(boxes: seq<Box>, v: Voxel, w: Voxel)
    requires Held(boxes, v) && Held(boxes, w)
    requires ByteOf(boxes, v) == ByteOf(boxes, w) && BitOf(boxes, v) == BitOf(boxes, w)
    ensures v == w
  {
    ByteInSlice(boxes, v);
    ByteInSlice(boxes, w);
    if v.t < w.t {
      OffsetsGrow(boxes, v.t + 1, w.t);
    } else if w.t < v.t {
      OffsetsGrow(boxes, w.t + 1, v.t);
    } else {
      SameSlicePlaces(boxes[v.t], v, w);
    }
  }

  lemma {:induction false} SameSlicePlaces(b: Box, v: Voxel, w: Voxel)
    requires Contains(b, v) && Contains(b, w) && v.t == w.t
    requires Times(v.y - b.y0, BoxStride(b)) + (v.x - b.x0) / 8 == Times(w.y - b.y0, BoxStride(b)) + (w.x - b.x0) / 8
    requires (v.x - b.x0) % 8 == (w.x - b.x0) % 8
    ensures v == w
  {
    InRow(true, v.x - b.x0, b.x1 - b.x0);
    InRow(true, w.x - b.x0, b.x1 - b.x0);
    BlockInjective(v.y - b.y0, w.y - b.y0, BoxStride(b), (v.x - b.x0) / 8, (w.x - b.x0) / 8);
  }

  // The payload

  ghost predicate AllHeld(boxes: seq<Box>, s: set<Voxel>) {
    forall v | v in s :: Held(boxes, v)
  }

  ghost predicate LitAt(boxes: seq<Box>, s: set<Voxel>, at: int, k: int) {
    exists v :: v in s && Held(boxes, v) && ByteOf(boxes, v) == at && BitOf(boxes, v) == k
  }

  /** The set bits of the payload are the places of the voxels, and no others. */
  ghost predicate Lit(payload: seq<bv8>, boxes: seq<Box>, s: set<Voxel>) {
    && |payload| == OffsetOf(boxes, |boxes|)
    && forall at, k | 0 <= at < |payload| && 0 <= k < 8 :: BitSet(payload[at], k) <==> LitAt(boxes, s, at, k)
  }

  lemma {:induction false} LightOne(payload: seq<bv8>, boxes: seq<Box>, s: set<Voxel>, v: Voxel)
    requires Lit(payload, boxes, s) && Held(boxes, v)
    ensures ByteOf(boxes, v) < |payload|
    ensures Lit(payload[ByteOf(boxes, v) := payload[ByteOf(boxes, v)] | Mask(BitOf(boxes, v))], boxes, s + {v})
  {
    hide ByteOf, BitOf, OffsetOf, BitSet, Lit, Mask, SetsBit;
    PlaceInPayload(payload, boxes, s, v);
    var at, bit := ByteOf(boxes, v), BitOf(boxes, v);
    OneMoreBit(payload[at], bit);
    LitByte(payload, boxes, s, v, payload[at] | Mask(bit));
  }

  predicate SetsBit(was: bv8, now: bv8, bit: int) {
    forall k | 0 <= k < 8 :: BitSet(now, k) <==> BitSet(was, k) || k == bit
  }

  lemma {:induction false} OneMoreBit(b: bv8, bit: nat)
    requires bit < 8
    ensures SetsBit(b, b | Mask(bit), bit)
  {
    hide BitSet, Mask;
    forall k | 0 <= k < 8
      ensures BitSet(b | Mask(bit), k) <==> BitSet(b, k) || k == bit
    {
      SettingSetsOne(b, bit, k);
    }
  }

  lemma {:induction false} PlaceInPayload(payload: seq<bv8>, boxes: seq<Box>, s: set<Voxel>, v: Voxel)
    requires Lit(payload, boxes, s) && Held(boxes, v)
    ensures ByteOf(boxes, v) < |payload| && 0 <= BitOf(boxes, v) < 8
  {
    hide ByteOf, BitOf, OffsetOf, BitSet;
    ByteInSlice(boxes, v);
    BitRange(boxes, v);
  }

  lemma {:induction false} LitByte(payload: seq<bv8>, boxes: seq<Box>, s: set<Voxel>, v: Voxel, lit: bv8)
    requires Lit(payload, boxes, s) && Held(boxes, v) && ByteOf(boxes, v) < |payload|
    requires SetsBit(payload[ByteOf(boxes, v)], lit, BitOf(boxes, v))
    ensures Lit(payload[ByteOf(boxes, v) := lit], boxes, s + {v})
  {
    hide ByteOf, BitOf, OffsetOf, BitSet, LitAt, Held;
    var next := payload[ByteOf(boxes, v) := lit];
    forall i, k | 0 <= i < |next| && 0 <= k < 8
      ensures BitSet(next[i], k) <==> LitAt(boxes, s + {v}, i, k)
    {
      LitMore(boxes, s, v, i, k);
      assert BitSet(payload[i], k) <==> LitAt(boxes, s, i, k);
    }
  }

  lemma {:induction false} LitMore(boxes: seq<Box>, s: set<Voxel>, v: Voxel, at: int, k: int)
    requires Held(boxes, v)
    ensures LitAt(boxes, s + {v}, at, k) <==> LitAt(boxes, s, at, k) || (ByteOf(boxes, v) == at && BitOf(boxes, v) == k)
  {
    hide ByteOf, BitOf, Held;
    if w :| w in s && Held(boxes, w) && ByteOf(boxes, w) == at && BitOf(boxes, w) == k {
      assert w in s + {v};
    }
    if ByteOf(boxes, v) == at && BitOf(boxes, v) == k {
      assert v in s + {v};
    }
  }

  lemma {:induction false} BitRange(boxes: seq<Box>, v: Voxel)
    requires Held(boxes, v)
    ensures 0 <= BitOf(boxes, v) < 8
  {
  }

  /** The payload is determined by the boxes and the voxels. */
  lemma {:induction false} LitUnique(a: seq<bv8>, b: seq<bv8>, boxes: seq<Box>, s: set<Voxel>)
    requires Lit(a, boxes, s) && Lit(b, boxes, s)
    ensures a == b
  {
    hide BitSet;
    forall i | 0 <= i < |a|
      ensures a[i] == b[i]
    {
      forall k | 0 <= k < 8
        ensures BitSet(a[i], k) <==> BitSet(b[i], k)
      {
        assert BitSet(a[i], k) <==> LitAt(boxes, s, i, k);
      }
      BitsDetermine(a[i], b[i]);
    }
  }

  // The index

  function RecordOf(boxes: seq<Box>, t: nat): Record
    requires t < |boxes|
  {
    var b := boxes[t];
    if Blank(b) || b.y0 < 0 || b.x0 < 0 then Record(0, 0, 0, 0, 0, 0, 0, 0)
    else Record(1, OffsetOf(boxes, t), Size(b), Times(b.y1 - b.y0, b.x1 - b.x0), b.y0, b.x0, b.y1, b.x1)
  }

  /** Lays the nonempty slices one after another. */
  method LayOut(bounds: array<Box>) returns (index: seq<Record>, offsets: array<nat>, total: nat)
    requires forall t | 0 <= t < bounds.Length :: 0 <= bounds[t].y0 && 0 <= bounds[t].x0
    ensures fresh(offsets) && offsets.Length == bounds.Length
    ensures total == OffsetOf(bounds[..], bounds.Length)
    ensures |index| == bounds.Length && forall t | 0 <= t < |index| :: index[t] == RecordOf(bounds[..], t)
    ensures forall t | 0 <= t < bounds.Length && !Blank(bounds[t]) :: offsets[t] == OffsetOf(bounds[..], t)
  {
    hide Times;
    offsets := new nat[bounds.Length](_ => 0);
    index, total := [], 0;
    for t := 0 to bounds.Length
      invariant total == OffsetOf(bounds[..], t)
      invariant |index| == t && forall u | 0 <= u < t :: index[u] == RecordOf(bounds[..], u)
      invariant forall u | 0 <= u < t && !Blank(bounds[u]) :: offsets[u] == OffsetOf(bounds[..], u)
    {
      var b := bounds[t];
      if b.y1 > b.y0 && b.x1 > b.x0 {
        var size := Times(b.y1 - b.y0, (b.x1 - b.x0 + 7) / 8);
        offsets[t] := total;
        index := index + [Record(1, total, size, Times(b.y1 - b.y0, b.x1 - b.x0), b.y0, b.x0, b.y1, b.x1)];
        total := total + size;
      } else {
        index := index + [Record(0, 0, 0, 0, 0, 0, 0, 0)];
      }
    }
  }
}
