/** The sparse slice store: one tight box per nonempty slice, its rows packed to bits or raw bytes. */
module SparseStore {
  datatype Record = Record(kind: nat, offset: nat, payloadSize: nat, payloadNbytes: nat,
                           y0: nat, x0: nat, y1: nat, x1: nat)

  datatype Store = Store(depth: nat, height: nat, width: nat, packed: bool, index: seq<Record>, payload: seq<bv8>)

  // Bits, least significant first

  function Mask(k: nat): bv8
    requires k < 8
  {
    if k == 0 then 1 else if k == 1 then 2 else if k == 2 then 4 else if k == 3 then 8
    else if k == 4 then 16 else if k == 5 then 32 else if k == 6 then 64 else 128
  }

  predicate BitSet(b: bv8, k: nat)
    requires k < 8
  {
    b & Mask(k) != 0
  }

  lemma {:induction false} SettingSetsOne(b: bv8, k: nat, j: nat)
    requires k < 8 && j < 8
    ensures BitSet(b | Mask(k), j) <==> BitSet(b, j) || j == k
  {
  }

  lemma {:induction false} NoBits(k: nat)
    requires k < 8
    ensures !BitSet(0, k)
  {
  }

  lemma {:induction false} BitsDetermine(a: bv8, b: bv8)
    requires forall k | 0 <= k < 8 :: BitSet(a, k) <==> BitSet(b, k)
    ensures a == b
  {
    assert BitSet(a, 0) <==> BitSet(b, 0);
    assert BitSet(a, 1) <==> BitSet(b, 1);
    assert BitSet(a, 2) <==> BitSet(b, 2);
    assert BitSet(a, 3) <==> BitSet(b, 3);
    assert BitSet(a, 4) <==> BitSet(b, 4);
    assert BitSet(a, 5) <==> BitSet(b, 5);
    assert BitSet(a, 6) <==> BitSet(b, 6);
    assert BitSet(a, 7) <==> BitSet(b, 7);
  }

  // Addresses

  function Times(a: nat, b: nat): nat {
    a * b
  }

  function Stride(packed: bool, cols: nat): nat {
    if packed then (cols + 7) / 8 else cols
  }

  function Column(packed: bool, col: nat): nat {
    if packed then col / 8 else col
  }

  lemma {:induction false} InRow(packed: bool, col: nat, cols: nat)
    requires col < cols
    ensures Column(packed, col) < Stride(packed, cols)
  {
  }

  lemma {:induction false} InBlock(row: nat, rows: nat, stride: nat, k: nat)
    requires row < rows && k < stride
    ensures Times(row, stride) + k < Times(rows, stride)
  {
    assert rows * stride == row * stride + stride + (rows - row - 1) * stride;
  }

  /** Rows and columns are determined by the address they give. */
  lemma {:induction false} BlockInjective(a: nat, b: nat, stride: nat, j: nat, k: nat)
    requires j < stride && k < stride && Times(a, stride) + j == Times(b, stride) + k
    ensures a == b && j == k
  {
    if a < b {
      InBlock(a, b, stride, j);
    } else if b < a {
      InBlock(b, a, stride, k);
    }
  }

  // Reading

  /** The consistency the readers demand of a nonempty slice. */
  predicate ValidCrop(s: Store, r: Record) {
    && 0 <= r.y0 < r.y1 <= s.height
    && 0 <= r.x0 < r.x1 <= s.width
    && r.payloadSize == Times(r.y1 - r.y0, Stride(s.packed, r.x1 - r.x0))
    && r.payloadNbytes == Times(r.y1 - r.y0, r.x1 - r.x0)
    && r.offset + r.payloadSize <= |s.payload|
  }

  predicate Readable(s: Store) {
    && |s.index| == s.depth
    && forall r | r in s.index && r.kind != 0 :: r.kind == 1 && ValidCrop(s, r)
  }

  predicate InBox(r: Record, y: int, x: int) {
    r.y0 <= y < r.y1 && r.x0 <= x < r.x1
  }

  function Address(s: Store, r: Record, y: int, x: int): (at: nat)
    requires ValidCrop(s, r) && InBox(r, y, x)
    ensures r.offset <= at < r.offset + r.payloadSize
  {
    InRow(s.packed, x - r.x0, r.x1 - r.x0);
    InBlock(y - r.y0, r.y1 - r.y0, Stride(s.packed, r.x1 - r.x0), Column(s.packed, x - r.x0));
    r.offset + Times(y - r.y0, Stride(s.packed, r.x1 - r.x0)) + Column(s.packed, x - r.x0)
  }

  /** One pixel of a stored slice: outside the box everything is background. */
  predicate Pixel(s: Store, r: Record, y: int, x: int) {
    && r.kind == 1 && ValidCrop(s, r) && InBox(r, y, x)
    && (if s.packed then BitSet(s.payload[Address(s, r, y, x)], (x - r.x0) % 8)
        else s.payload[Address(s, r, y, x)] != 0)
  }

  /** The decoded volume. */
  predicate At(s: Store, z: int, y: int, x: int) {
    0 <= z < |s.index| && Pixel(s, s.index[z], y, x)
  }
}
