/** Reading a score store frame by frame, and joining disjoint leases without decoding. */
module ScoreJoin {
  import opened Options
  import opened ScoreIndex

  datatype Store = Store(shape: Shape, rows: seq<Row>, payload: seq<nat>)

  predicate Opens(s: Store) {
    ValidIndex(s.rows, s.shape, |s.payload|)
  }

  /** One block as a reader yields it: its place in the frame and its compressed bytes. */
  datatype Block = Block(y: nat, x: nat, h: nat, w: nat, bytes: seq<nat>)

  function BlockOf(r: Row, payload: seq<nat>): Block
    requires r.offset + r.length <= |payload|
  {
    Block(r.y, r.x, r.h, r.w, payload[r.offset..r.offset + r.length])
  }

  predicate Backed(rows: seq<Row>, payload: seq<nat>) {
    forall r | r in rows :: r.offset + r.length <= |payload|
  }

  /** The blocks of frame `z`, in index order. */
  function FrameOf(rows: seq<Row>, payload: seq<nat>, z: int): seq<Block>
    requires Backed(rows, payload)
  {
    if rows == [] then []
    else
      var rest := FrameOf(rows[1..], payload, z);
      if rows[0].z == z then [BlockOf(rows[0], payload)] + rest else rest
  }

  lemma {:induction false} OpenIsBacked(s: Store)
    requires Opens(s)
    ensures Backed(s.rows, s.payload)
  {
    forall r | r in s.rows
      ensures r.offset + r.length <= |s.payload|
    {
      var i :| 0 <= i < |s.rows| && s.rows[i] == r;
      ChainBounds(s.rows, 0, i);
    }
  }

  function Frame(s: Store, z: int): seq<Block>
    requires Opens(s)
  {
    OpenIsBacked(s);
    FrameOf(s.rows, s.payload, z)
  }

  lemma {:induction false} FrameJoin(a: seq<Row>, b: seq<Row>, payload: seq<nat>, z: int)
    requires Backed(a, payload) && Backed(b, payload)
    ensures Backed(a + b, payload)
    ensures FrameOf(a + b, payload, z) == FrameOf(a, payload, z) + FrameOf(b, payload, z)
  {
    if a == [] {
      assert a + b == b;
    } else {
      assert (a + b)[1..] == a[1..] + b;
      FrameJoin(a[1..], b, payload, z);
    }
  }

  lemma {:induction false} NoFrame(rows: seq<Row>, payload: seq<nat>, z: int)
    requires Backed(rows, payload) && forall r | r in rows :: r.z != z
    ensures FrameOf(rows, payload, z) == []
  {
    if rows != [] {
      NoFrame(rows[1..], payload, z);
    }
  }

  // The reader's slice of the sorted index

  /** How many records lie before frame `z`: where a binary search on the frame column lands. */
  function Before(rows: seq<Row>, z: int): (n: nat)
    ensures n <= |rows|
  {
    if rows == [] then 0 else (if rows[0].z < z then 1 else 0) + Before(rows[1..], z)
  }

  /** On an index in frame order, the searched slice holds exactly the records of the frame. */
  lemma {:induction false} SearchFindsFrame(rows: seq<Row>, first: nat, z: int)
    requires FramesRise(rows, first)
    ensures Before(rows, z) <= Before(rows, z + 1)
    ensures forall i | 0 <= i < |rows| :: (rows[i].z < z <==> i < Before(rows, z))
    ensures forall i | 0 <= i < |rows| :: (rows[i].z == z <==> Before(rows, z) <= i < Before(rows, z + 1))
  {
    if rows != [] {
      var tail := rows[1..];
      forall i | 0 < i < |tail|
        ensures tail[i - 1].z <= tail[i].z
      {
        assert tail[i] == rows[i + 1] && tail[i - 1] == rows[i];
      }
      if tail != [] {
        assert tail[0] == rows[1];
      }
      SearchFindsFrame(tail, rows[0].z, z);
      forall i | 0 <= i < |rows|
        ensures rows[i].z < z <==> i < Before(rows, z)
        ensures rows[i].z == z <==> Before(rows, z) <= i < Before(rows, z + 1)
      {
        if i > 0 {
          assert rows[i] == tail[i - 1];
        }
        if tail != [] {
          FramesSorted(rows, first, 0, 1);
          assert Before(tail, z) > 0 ==> tail[0].z < z;
          assert Before(tail, z + 1) > 0 ==> tail[0].z < z + 1;
        }
      }
    }
  }

  function Slice(rows: seq<Row>, payload: seq<nat>, a: nat, b: nat): seq<Block>
    requires a <= b <= |rows| && Backed(rows, payload)
  {
    seq(b - a, i requires 0 <= i < b - a => BlockOf(rows[a + i], payload))
  }

  lemma {:induction false} SliceGrows(rows: seq<Row>, payload: seq<nat>, a: nat, b: nat)
    requires a <= b < |rows| && Backed(rows, payload)
    ensures Slice(rows, payload, a, b + 1) == Slice(rows, payload, a, b) + [BlockOf(rows[b], payload)]
  {
  }

  lemma {:induction false} FrameOfSlice(rows: seq<Row>, payload: seq<nat>, a: nat, b: nat, z: int)
    requires a <= b <= |rows| && Backed(rows, payload)
    requires forall i | 0 <= i < |rows| :: rows[i].z == z <==> a <= i < b
    ensures FrameOf(rows, payload, z) == Slice(rows, payload, a, b)
    decreases |rows|
  {
    hide BlockOf;
    if rows != [] {
      var tail := rows[1..];
      var from, to := if a > 0 then a - 1 else 0, if b > 0 then b - 1 else 0;
      forall i | 0 <= i < |tail|
        ensures tail[i].z == z <==> from <= i < to
      {
        assert tail[i] == rows[i + 1];
      }
      FrameOfSlice(tail, payload, from, to, z);
    }
  }

  /** Reads one frame by its slice of the index; refused outside the grid. */
  method IterCrops(s: Store, z: int) returns (crops: Option<seq<Block>>)
    requires Opens(s)
    ensures crops == if 0 <= z < s.shape.depth then Some(Frame(s, z)) else None
  {
    if !(0 <= z < s.shape.depth) {
      return None;
    }
    OpenIsBacked(s);
    SearchFindsFrame(s.rows, 0, z);
    var first, stop := Before(s.rows, z), Before(s.rows, z + 1);
    FrameOfSlice(s.rows, s.payload, first, stop, z);
    hide Opens, Backed, Slice, BlockOf, FrameOf, FramesRise;
    var out: seq<Block> := [];
    EmptySlice(s.rows, s.payload, first);
    for number := first to stop
      invariant out == Slice(s.rows, s.payload, first, number)
    {
      SliceGrows(s.rows, s.payload, first, number);
      BackedRow(s.rows, s.payload, number);
      out := out + [BlockOf(s.rows[number], s.payload)];
    }
    crops := Some(out);
  }

  lemma {:induction false} EmptySlice(rows: seq<Row>, payload: seq<nat>, a: nat)
    requires a <= |rows| && Backed(rows, payload)
    ensures Slice(rows, payload, a, a) == []
  {
  }

  lemma {:induction false} BackedRow(rows: seq<Row>, payload: seq<nat>, i: nat)
    requires i < |rows| && Backed(rows, payload)
    ensures rows[i].offset + rows[i].length <= |payload|
  {
  }

  // Rebasing

  function Rebased(r: Row, dz: nat, base: nat): Row {
    r.(z := r.z + dz, offset := r.offset + base)
  }

  function Rebase(rows: seq<Row>, dz: nat, base: nat): (out: seq<Row>)
    ensures |out| == |rows| && forall i | 0 <= i < |rows| :: out[i] == Rebased(rows[i], dz, base)
  {
    seq(|rows|, i requires 0 <= i < |rows| => Rebased(rows[i], dz, base))
  }

  /** The same in the widths of the record fields. */
  function RebasedModulo(r: Row, dz: nat, base: nat): Row {
    r.(z := (r.z + dz) % TWO32, offset := (r.offset + base) % TWO64)
  }

  lemma {:induction false} RebaseKeepsIndex(rows: seq<Row>, s: Shape, t: Shape, dz: nat, base: nat)
    requires Chained(rows, 0) && FramesRise(rows, 0) && AllInside(rows, s)
    requires dz + s.depth <= t.depth && s.height == t.height && s.width == t.width
    ensures Chained(Rebase(rows, dz, base), base) && FramesRise(Rebase(rows, dz, base), dz)
    ensures AllInside(Rebase(rows, dz, base), t)
    ensures EndOf(Rebase(rows, dz, base), base) == base + EndOf(rows, 0)
    ensures forall r | r in Rebase(rows, dz, base) :: dz <= r.z < dz + s.depth
  {
    var out := Rebase(rows, dz, base);
    forall r | r in out
      ensures RowInside(r, t) && dz <= r.z < dz + s.depth
    {
      var i :| 0 <= i < |out| && out[i] == r;
      assert rows[i] in rows;
    }
  }

  lemma {:induction false} RebaseKeepsFrame(rows: seq<Row>, payload: seq<nat>, pre: seq<nat>, post: seq<nat>, dz: nat,
        z: int)
    requires Backed(rows, payload)
    ensures Backed(Rebase(rows, dz, |pre|), pre + payload + post)
    ensures FrameOf(Rebase(rows, dz, |pre|), pre + payload + post, z) == FrameOf(rows, payload, z - dz)
  {
    var whole, out := pre + payload + post, Rebase(rows, dz, |pre|);
    forall r | r in out
      ensures r.offset + r.length <= |whole|
    {
      var i :| 0 <= i < |out| && out[i] == r;
      assert rows[i] in rows;
    }
    if rows != [] {
      RebaseKeepsFrame(rows[1..], payload, pre, post, dz, z);
      assert out[1..] == Rebase(rows[1..], dz, |pre|);
      var r := rows[0];
      assert whole[r.offset + |pre|..r.offset + |pre| + r.length] == payload[r.offset..r.offset + r.length];
    }
  }

  // Leases

  /** A lease: a store over frames `first..` of the native view, with what its metadata promises. */
  datatype Lease = Lease(store: Store, first: nat, blockSize: nat, quantization: nat, count: nat, known: nat,
      intact: bool)

  /** Leases sorted by first frame cover `from..depth` without gap or overlap. */
  predicate Covers(leases: seq<Lease>, from: nat, native: Shape) {
    if leases == [] then from == native.depth
    else
      && leases[0].first == from
      && from + leases[0].store.shape.depth <= native.depth
      && Covers(leases[1..], from + leases[0].store.shape.depth, native)
  }

  function PayloadOf(leases: seq<Lease>): seq<nat> {
    if leases == [] then [] else leases[0].store.payload + PayloadOf(leases[1..])
  }

  /** The joined index: each lease's records, moved to its frames and to its part of the payload. */
  function RowsOf(leases: seq<Lease>, base: nat): seq<Row> {
    if leases == [] then []
    else Rebase(leases[0].store.rows, leases[0].first, base) + RowsOf(leases[1..], base + |leases[0].store.payload|)
  }

  predicate AllOpen(leases: seq<Lease>, native: Shape) {
    forall l | l in leases ::
      && l.store.shape.height == native.height && l.store.shape.width == native.width && l.store.shape.depth > 0
      && Opens(l.store)
  }

  /** The joined index passes the readers' check. */
  lemma {:induction false} JoinedIsValid(leases: seq<Lease>, from: nat, base: nat, native: Shape)
    requires AllOpen(leases, native) && Covers(leases, from, native)
    ensures Chained(RowsOf(leases, base), base) && FramesRise(RowsOf(leases, base), from)
    ensures AllInside(RowsOf(leases, base), native)
    ensures EndOf(RowsOf(leases, base), base) == base + |PayloadOf(leases)|
  {
    hide Chained, FramesRise, AllInside, EndOf, Rebase, Opens;
    if leases == [] {
      EmptyFrom(base, from, native);
    } else {
      var l, rest := leases[0], leases[1..];
      var next, until := base + |l.store.payload|, from + l.store.shape.depth;
      JoinedIsValid(rest, until, next, native);
      LeasePart(l, from, base, native);
      PartsJoin(Rebase(l.store.rows, from, base), RowsOf(rest, next), base, next, from, until, native);
    }
  }

  lemma {:induction false} LeasePart(l: Lease, from: nat, base: nat, native: Shape)
    requires Opens(l.store) && from + l.store.shape.depth <= native.depth
    requires l.store.shape.height == native.height && l.store.shape.width == native.width
    ensures var rows := Rebase(l.store.rows, from, base);
      && Chained(rows, base) && EndOf(rows, base) == base + |l.store.payload|
      && FramesRise(rows, from) && LastFrame(rows, from) <= from + l.store.shape.depth && AllInside(rows, native)
  {
    hide Chained, FramesRise, AllInside, EndOf, Rebase, Opens;
    OpenIsChained(l.store);
    RebaseKeepsIndex(l.store.rows, l.store.shape, native, from, base);
    LastWithin(Rebase(l.store.rows, from, base), from, from + l.store.shape.depth);
  }

  lemma {:induction false} PartsJoin(a: seq<Row>, b: seq<Row>, base: nat, next: nat, from: nat, until: nat,
        native: Shape)
    requires Chained(a, base) && EndOf(a, base) == next && Chained(b, next)
    requires FramesRise(a, from) && LastFrame(a, from) <= until && FramesRise(b, until)
    requires AllInside(a, native) && AllInside(b, native)
    ensures Chained(a + b, base) && FramesRise(a + b, from) && AllInside(a + b, native)
    ensures EndOf(a + b, base) == EndOf(b, next)
  {
    hide Chained, FramesRise, AllInside, EndOf, LastFrame;
    ChainedJoin(a, b, base);
    FramesJoin(a, b, from);
    InsideJoin(a, b, native);
    LaterFrames(b, LastFrame(a, from), until);
  }

  lemma {:induction false} OpenIsChained(s: Store)
    requires Opens(s)
    ensures Chained(s.rows, 0) && FramesRise(s.rows, 0) && AllInside(s.rows, s.shape) && EndOf(s.rows, 0) == |s.payload|
  {
  }

  lemma {:induction false} LastWithin(rows: seq<Row>, from: nat, until: nat)
    requires from <= until && forall r | r in rows :: r.z < until
    ensures LastFrame(rows, from) <= until
  {
  }

  lemma {:induction false} EmptyFrom(base: nat, from: nat, native: Shape)
    ensures Chained([], base) && FramesRise([], from) && AllInside([], native) && EndOf([], base) == base
  {
  }

  lemma {:induction false} LaterFrames(rows: seq<Row>, low: nat, from: nat)
    requires FramesRise(rows, from) && low <= from
    ensures FramesRise(rows, low)
  {
  }

  function Joined(leases: seq<Lease>, native: Shape): Store {
    Store(native, RowsOf(leases, 0), PayloadOf(leases))
  }

  /** Frame `z` of the native view, read from whichever pieces cover it, in the order they are listed. */
  function PieceFrame(pieces: seq<Lease>, z: int): seq<Block>
    requires forall l | l in pieces :: Opens(l.store)
  {
    if pieces == [] then []
    else
      var l, rest := pieces[0], PieceFrame(pieces[1..], z);
      if l.first <= z < l.first + l.store.shape.depth then Frame(l.store, z - l.first) + rest else rest
  }
}
