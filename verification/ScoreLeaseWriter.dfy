/** The streaming join: every lease's index checked and rewritten chunk by chunk. */
module ScoreLeaseWriter {
  import opened Options
  import opened ScoreIndex
  import opened ScoreJoin
  import opened ScoreLeases

  predicate OneCell(r: Row, block: nat)
    requires block > 0 && r.h > 0 && r.w > 0
  {
    r.y / block == (r.y + r.h - 1) / block && r.x / block == (r.x + r.w - 1) / block
  }

  /** Frame, then row of cells, then column of cells, strictly rising. */
  predicate KeyRises(a: Row, b: Row, block: nat)
    requires block > 0
  {
    || a.z < b.z
    || (a.z == b.z && a.y / block < b.y / block)
    || (a.z == b.z && a.y / block == b.y / block && a.x / block < b.x / block)
  }

  predicate KeysRise(rows: seq<Row>, block: nat)
    requires block > 0
  {
    forall i | 0 < i < |rows| :: KeyRises(rows[i - 1], rows[i], block)
  }

  predicate InCells(rows: seq<Row>, s: Shape, block: nat)
    requires block > 0
  {
    forall r | r in rows :: RowInside(r, s) && OneCell(r, block)
  }

  function Area(rows: seq<Row>): nat {
    if rows == [] then 0 else Area(rows[..|rows| - 1]) + rows[|rows| - 1].h * rows[|rows| - 1].w
  }

  /** What the join demands of a lease's index file. */
  predicate IndexOk(l: Lease)
    requires l.blockSize > 0
  {
    var rows := l.store.rows;
    && |rows| == l.count && Chained(rows, 0) && EndOf(rows, 0) == |l.store.payload|
    && InCells(rows, l.store.shape, l.blockSize) && KeysRise(rows, l.blockSize)
    && l.intact && l.known <= Area(rows)
  }

  lemma {:induction false} IndexOkOpens(l: Lease)
    requires l.blockSize > 0 && IndexOk(l)
    ensures Opens(l.store)
  {
  }

  function RebaseModulo(rows: seq<Row>, dz: nat, base: nat): seq<Row> {
    seq(|rows|, i requires 0 <= i < |rows| => RebasedModulo(rows[i], dz, base))
  }

  /** Frames below 2^32 and payloads below 2^64 leave no field to wrap. */
  lemma {:induction false} RebaseDoesNotWrap(l: Lease, base: nat)
    requires Opens(l.store) && l.first + l.store.shape.depth <= TWO32 && base + |l.store.payload| < TWO64
    ensures RebaseModulo(l.store.rows, l.first, base) == Rebase(l.store.rows, l.first, base)
  {
    var rows := l.store.rows;
    forall i | 0 <= i < |rows|
      ensures RebasedModulo(rows[i], l.first, base) == Rebased(rows[i], l.first, base)
    {
      assert rows[i] in rows;
      ChainBounds(rows, 0, i);
    }
  }

  // One chunk

  lemma {:induction false} KeysJoin(a: seq<Row>, b: seq<Row>, block: nat)
    requires block > 0
    ensures KeysRise(a + b, block) <==>
      KeysRise(a, block) && KeysRise(b, block) && (a != [] && b != [] ==> KeyRises(a[|a| - 1], b[0], block))
  {
    var c := a + b;
    if KeysRise(c, block) {
      forall i | 0 < i < |a|
        ensures KeyRises(a[i - 1], a[i], block)
      {
        assert KeyRises(c[i - 1], c[i], block);
      }
      forall i | 0 < i < |b|
        ensures KeyRises(b[i - 1], b[i], block)
      {
        assert KeyRises(c[|a| + i - 1], c[|a| + i], block);
      }
      if a != [] && b != [] {
        assert KeyRises(c[|a| - 1], c[|a|], block);
      }
    }
  }

  lemma {:induction false} CellsJoin(a: seq<Row>, b: seq<Row>, s: Shape, block: nat)
    requires block > 0
    ensures InCells(a + b, s, block) <==> InCells(a, s, block) && InCells(b, s, block)
  {
    assert forall r :: r in a + b <==> r in a || r in b;
  }

  lemma {:induction false} AreaJoin(a: seq<Row>, b: seq<Row>)
    ensures Area(a + b) == Area(a) + Area(b)
  {
    if b == [] {
      assert a + b == a;
    } else {
      assert (a + b)[..|a + b| - 1] == a + b[..|b| - 1];
      AreaJoin(a, b[..|b| - 1]);
    }
  }

  /** The checks on one chunk, given the rows before it only by where they end and their last row. */
  predicate ChunkOk(l: Lease, part: seq<Row>, previousEnd: nat, previousRow: Option<Row>)
    requires l.blockSize > 0
  {
    && part != [] && ChainedModulo(part, previousEnd)
    && InCells(part, l.store.shape, l.blockSize) && KeysRise(part, l.blockSize)
    && (previousRow.Some? ==> KeyRises(previousRow.value, part[0], l.blockSize))
    && part[|part| - 1].offset + part[|part| - 1].length <= |l.store.payload|
  }

  function LastRow(rows: seq<Row>): Option<Row> {
    if rows == [] then None else Some(rows[|rows| - 1])
  }

  /** The rows checked so far meet the demands on the whole. */
  predicate Sofar(l: Lease, done: seq<Row>)
    requires l.blockSize > 0
  {
    Chained(done, 0) && InCells(done, l.store.shape, l.blockSize) && KeysRise(done, l.blockSize)
  }

  /** A chunk of a good index is accepted. */
  lemma {:induction false} GoodChunk(l: Lease, done: seq<Row>, part: seq<Row>, rest: seq<Row>)
    requires l.blockSize > 0 && part != [] && AllFit(part) && Sofar(l, done + (part + rest))
    requires EndOf(done + (part + rest), 0) <= |l.store.payload|
    ensures ChunkOk(l, part, EndOf(done, 0), LastRow(done))
  {
    hide Chained, ChainedModulo, InCells, KeysRise, AllFit;
    var all := done + (part + rest);
    ChainedJoin(done, part + rest, 0);
    ChainedJoin(part, rest, EndOf(done, 0));
    CellsJoin(done, part + rest, l.store.shape, l.blockSize);
    CellsJoin(part, rest, l.store.shape, l.blockSize);
    KeysJoin(done, part + rest, l.blockSize);
    KeysJoin(part, rest, l.blockSize);
    ChainFits(part, EndOf(done, 0));
    var last := |done| + |part| - 1;
    assert all[last] == part[|part| - 1];
    ChainBounds(all, 0, last);
  }

  /** The rows accepted so far, chained as far as 64-bit sums tell. */
  predicate Seen(l: Lease, done: seq<Row>, chunk: nat)
    requires l.blockSize > 0 && chunk >= 1
  {
    Linked(done, chunk) && InCells(done, l.store.shape, l.blockSize) && KeysRise(done, l.blockSize)
  }

  /** An accepted chunk continues an accepted beginning. */
  lemma {:induction false} ChunkContinues(l: Lease, done: seq<Row>, part: seq<Row>, chunk: nat)
    requires l.blockSize > 0 && chunk >= 1 && |done| % chunk == 0 && |part| <= chunk && Seen(l, done, chunk)
    requires ChunkOk(l, part, EndOf(done, 0), LastRow(done))
    ensures Seen(l, done + part, chunk)
  {
    hide Linked, ChainedModulo, InCells, KeysRise, AllFit;
    LinkedJoin(done, part, chunk);
    CellsJoin(done, part, l.store.shape, l.blockSize);
    KeysJoin(done, part, l.blockSize);
  }

  lemma {:induction false} RebaseModuloJoin(a: seq<Row>, b: seq<Row>, dz: nat, base: nat)
    ensures RebaseModulo(a + b, dz, base) == RebaseModulo(a, dz, base) + RebaseModulo(b, dz, base)
  {
  }

  /** What one chunk adds to the running totals. */
  lemma {:induction false} ChunkAdds(rows: seq<Row>, first: nat, stop: nat, dz: nat, base: nat)
    requires first < stop <= |rows|
    ensures var part := rows[first..stop];
      && RebaseModulo(rows[..stop], dz, base) == RebaseModulo(rows[..first], dz, base) + RebaseModulo(part, dz, base)
      && Area(rows[..stop]) == Area(rows[..first]) + Area(part)
      && EndOf(rows[..stop], 0) == part[|part| - 1].offset + part[|part| - 1].length
      && LastRow(rows[..stop]) == Some(part[|part| - 1])
  {
    hide RebaseModulo, Area;
    assert rows[..stop] == rows[..first] + rows[first..stop];
    RebaseModuloJoin(rows[..first], rows[first..stop], dz, base);
    AreaJoin(rows[..first], rows[first..stop]);
  }

  /** A chunk of a good index is accepted, and an accepted chunk continues an accepted beginning. */
  lemma {:induction false} ChunkVerdict(l: Lease, first: nat, stop: nat, chunk: nat)
    requires l.blockSize > 0 && first < stop <= |l.store.rows| && AllFit(l.store.rows)
    requires chunk >= 1 && first % chunk == 0 && stop - first <= chunk && Seen(l, l.store.rows[..first], chunk)
    ensures var done, part := l.store.rows[..first], l.store.rows[first..stop];
      && (IndexOk(l) ==> stop <= l.count && ChunkOk(l, part, EndOf(done, 0), LastRow(done)))
      && (ChunkOk(l, part, EndOf(done, 0), LastRow(done)) ==> Seen(l, l.store.rows[..stop], chunk))
  {
    hide Sofar, Seen, ChunkOk, AllFit, EndOf, IndexOk;
    var rows := l.store.rows;
    var done, part, rest := rows[..first], rows[first..stop], rows[stop..];
    assert rows == done + (part + rest) && rows[..stop] == done + part;
    FitJoin(done, part + rest);
    FitJoin(part, rest);
    if IndexOk(l) {
      GoodIsSofar(l);
      GoodIsComplete(l);
      GoodChunk(l, done, part, rest);
    }
    if ChunkOk(l, part, EndOf(done, 0), LastRow(done)) {
      ChunkContinues(l, done, part, chunk);
    }
  }

  /** Checks and rewrites a lease's index chunk by chunk. Whatever the chunk size, a good index is accepted,
      and an accepted index is good if and only if its lengths add up to the payload. */
  method RewriteIndex(l: Lease, payloadBase: nat, chunkRecords: nat) returns (out: Option<seq<Row>>)
    requires l.blockSize > 0 && chunkRecords >= 1 && AllFit(l.store.rows)
    ensures IndexOk(l) <==> out.Some? && Total(l.store.rows) == |l.store.payload|
    ensures out.Some? ==> out.value == RebaseModulo(l.store.rows, l.first, payloadBase)
  {
    GoodTotal(l);
    hide Sofar, Seen, ChunkOk, AllFit, RebaseModulo, RebasedModulo, EndOf, LastRow, Area, IndexOk, Total;
    var rows := l.store.rows;
    var first: nat, area: nat, previousEnd: nat := 0, 0, 0;
    var previousRow: Option<Row> := None;
    var written: seq<Row> := [];
    NothingSeen(l, chunkRecords);
    NothingRebased(l.first, payloadBase);
    assert rows[..0] == [];
    while first < |rows|
      invariant 0 <= first <= |rows| && (first < |rows| ==> first % chunkRecords == 0)
      invariant written == RebaseModulo(rows[..first], l.first, payloadBase) && area == Area(rows[..first])
      invariant previousEnd == EndOf(rows[..first], 0) && previousRow == LastRow(rows[..first])
      invariant Seen(l, rows[..first], chunkRecords)
    {
      var stop := if first + chunkRecords < |rows| then first + chunkRecords else |rows|;
      var part := rows[first..stop];
      ChunkVerdict(l, first, stop, chunkRecords);
      NextChunk(first, chunkRecords);
      if stop > l.count || !ChunkOk(l, part, previousEnd, previousRow) {
        return None;
      }
      ChunkAdds(rows, first, stop, l.first, payloadBase);
      written := written + RebaseModulo(part, l.first, payloadBase);
      area := area + Area(part);
      previousEnd := part[|part| - 1].offset + part[|part| - 1].length;
      previousRow := Some(part[|part| - 1]);
      first := stop;
    }
    assert rows[..first] == rows;
    SeenIsGood(l, chunkRecords);
    GoodIsComplete(l);
    if |rows| != l.count || previousEnd != |l.store.payload| || !l.intact || l.known > area {
      return None;
    }
    out := Some(written);
  }

  lemma {:induction false} NothingRebased(dz: nat, base: nat)
    ensures RebaseModulo([], dz, base) == [] && Area([]) == 0 && EndOf([], 0) == 0 && LastRow([]) == None
  {
  }

  lemma {:induction false} GoodIsSofar(l: Lease)
    requires l.blockSize > 0 && IndexOk(l)
    ensures Sofar(l, l.store.rows)
  {
  }

  /** The checks made once the whole index file has been read. */
  predicate Complete(l: Lease) {
    && |l.store.rows| == l.count && EndOf(l.store.rows, 0) == |l.store.payload|
    && l.intact && l.known <= Area(l.store.rows)
  }

  lemma {:induction false} GoodIsComplete(l: Lease)
    requires l.blockSize > 0
    ensures IndexOk(l) ==> Complete(l)
  {
  }

  lemma {:induction false} GoodTotal(l: Lease)
    requires l.blockSize > 0
    ensures IndexOk(l) ==> Total(l.store.rows) == |l.store.payload|
  {
    hide InCells, KeysRise, Chained, EndOf, Area, Total;
    if IndexOk(l) {
      ChainTotal(l.store.rows, 0);
    }
  }

  lemma {:induction false} SeenIsGood(l: Lease, chunk: nat)
    requires l.blockSize > 0 && chunk >= 1 && AllFit(l.store.rows)
    ensures Seen(l, l.store.rows, chunk) && Complete(l) && Total(l.store.rows) == |l.store.payload| ==> IndexOk(l)
  {
    hide Linked, Chained, InCells, KeysRise, AllFit, Total, EndOf, Area;
    LinkedIsChained(l.store.rows, chunk);
  }

  lemma {:induction false} NothingSeen(l: Lease, chunk: nat)
    requires l.blockSize > 0 && chunk >= 1
    ensures Seen(l, [], chunk)
  {
  }

  // The whole join

  predicate CheckedShape(s: Shape) {
    0 < s.depth < 0x8000_0000 && 0 < s.height < 0x8000_0000 && 0 < s.width < 0x8000_0000
  }

  function Volume(s: Shape): nat {
    Times(s.depth, Times(s.height, s.width))
  }

  function Times(a: nat, b: nat): nat {
    a * b
  }

  /** The checks made on metadata before any byte is copied. */
  predicate Preflight(pieces: seq<Lease>, native: Shape) {
    && CheckedShape(native) && pieces != []
    && (forall l | l in pieces ::
      && l.store.shape.height == native.height && l.store.shape.width == native.width && l.store.shape.depth > 0
      && 1 <= l.blockSize <= 65535 && (l.count > 0 <==> l.known > 0)
      && l.known <= Volume(l.store.shape)
      && |l.store.rows| == l.count && l.quantization == pieces[0].quantization && l.blockSize == pieces[0].blockSize)
    && Covers(Sorted(pieces), 0, native)
    && |PayloadOf(Sorted(pieces))| < TWO64
  }

  lemma {:induction false} RowsMore(leases: seq<Lease>, i: nat)
    requires i < |leases|
    ensures PayloadOf(leases[..i + 1]) == PayloadOf(leases[..i]) + leases[i].store.payload
    ensures RowsOf(leases[..i + 1], 0) ==
      RowsOf(leases[..i], 0) + Rebase(leases[i].store.rows, leases[i].first, |PayloadOf(leases[..i])|)
  {
    assert leases[..i + 1] == leases[..i] + [leases[i]];
    RowsAppend(leases[..i], leases[i], 0);
  }

  lemma {:induction false} RowsAppend(leases: seq<Lease>, l: Lease, base: nat)
    ensures PayloadOf(leases + [l]) == PayloadOf(leases) + l.store.payload
    ensures RowsOf(leases + [l], base)
            == RowsOf(leases, base) + Rebase(l.store.rows, l.first, base + |PayloadOf(leases)|)
  {
    hide Rebase;
    if leases == [] {
      assert leases + [l] == [l];
      assert [l][1..] == [];
    } else {
      assert (leases + [l])[1..] == leases[1..] + [l];
      RowsAppend(leases[1..], l, base + |leases[0].store.payload|);
    }
  }

  lemma {:induction false} CoverEnds(leases: seq<Lease>, from: nat, native: Shape, i: nat)
    requires Covers(leases, from, native) && i < |leases|
    ensures leases[i].first + leases[i].store.shape.depth <= native.depth
  {
    if i > 0 {
      CoverEnds(leases[1..], from + leases[0].store.shape.depth, native, i - 1);
    }
  }

  lemma {:induction false} PayloadPart(leases: seq<Lease>, i: nat)
    requires i < |leases|
    ensures |PayloadOf(leases[..i])| + |leases[i].store.payload| <= |PayloadOf(leases)|
  {
    if i > 0 {
      assert leases[..i][1..] == leases[1..][..i - 1];
      PayloadPart(leases[1..], i - 1);
    }
  }

  lemma {:induction false} NothingJoined()
    ensures RowsOf([], 0) == [] && PayloadOf([]) == [] && Counts([]) == 0 && Knowns([]) == 0
  {
  }

  predicate AllGood(pieces: seq<Lease>) {
    forall l | l in pieces :: l.blockSize > 0 && IndexOk(l)
  }

  /** What the lengths of the records give away: none of the sums has come round. */
  predicate Tallied(pieces: seq<Lease>) {
    forall l | l in pieces :: Total(l.store.rows) == |l.store.payload|
  }

  // The joined store as a lease

  function Counts(leases: seq<Lease>): nat {
    if leases == [] then 0 else leases[0].count + Counts(leases[1..])
  }

  function Knowns(leases: seq<Lease>): nat {
    if leases == [] then 0 else leases[0].known + Knowns(leases[1..])
  }

  /** The joined store with its manifest: the totals over the leases, and their common block size and
      quantization. */
  function JoinedLease(leases: seq<Lease>, native: Shape): Lease
    requires leases != []
  {
    Lease(Joined(leases, native), 0, leases[0].blockSize, leases[0].quantization, Counts(leases), Knowns(leases), true)
  }

  /** Joins the leases into one store, or refuses them. Good leases are never refused, and what is
      accepted is good and joined exactly, if and only if the records' lengths add up. */
  method WriteDisjointLeases(pieces: seq<Lease>, native: Shape, chunkRecords: nat) returns (out: Option<Lease>)
    requires chunkRecords >= 1 && forall l | l in pieces :: AllFit(l.store.rows)
    ensures Preflight(pieces, native) && AllGood(pieces) <==> out.Some? && Tallied(pieces)
    ensures out.Some? && Tallied(pieces) ==> pieces != [] && Sorted(pieces) != [] && AllOpen(pieces, native)
    ensures out.Some? && Tallied(pieces) ==> out.value == JoinedLease(Sorted(pieces), native)
  {
    GoodTallied(pieces);
    hide IndexOk, Covers, Opens, AllFit, Rebase, RebaseModulo, RowsOf, PayloadOf, Sorted, Total, Volume;
    if !Preflight(pieces, native) {
      return None;
    }
    var leases := Sorted(pieces);
    SortKeeps(pieces);
    assert pieces[0] in leases;
    var rows: seq<Row>, payload: seq<nat>, blocks: nat, known: nat := [], [], 0, 0;
    assert leases[..0] == [];
    NothingJoined();
    for i := 0 to |leases|
      invariant payload == PayloadOf(leases[..i])
      invariant blocks == Counts(leases[..i]) && known == Knowns(leases[..i])
      invariant Tallied(pieces) ==> rows == RowsOf(leases[..i], 0)
      invariant Tallied(pieces) ==> forall k | 0 <= k < i :: IndexOk(leases[k])
    {
      var l := leases[i];
      assert l in pieces;
      var part := RewriteIndex(l, |payload|, chunkRecords);
      if part.None? {
        return None;
      }
      RowsMore(leases, i);
      CountsMore(leases, i);
      if Tallied(pieces) {
        IndexOkOpens(l);
        CoverEnds(leases, 0, native, i);
        PayloadPart(leases, i);
        RebaseDoesNotWrap(l, |payload|);
      }
      rows := rows + part.value;
      payload := payload + l.store.payload;
      blocks := blocks + l.count;
      known := known + l.known;
    }
    assert leases[..|leases|] == leases;
    forall l | l in pieces && Tallied(pieces)
      ensures IndexOk(l) && Opens(l.store)
    {
      assert l in leases;
      IndexOkOpens(l);
    }
    var joined := Store(native, rows, payload);
    out := Some(Lease(joined, 0, leases[0].blockSize, leases[0].quantization, blocks, known, true));
  }

  lemma {:induction false} GoodTallied(pieces: seq<Lease>)
    ensures AllGood(pieces) ==> Tallied(pieces)
  {
    hide IndexOk, Total;
    forall l | l in pieces && AllGood(pieces)
      ensures Total(l.store.rows) == |l.store.payload|
    {
      GoodTotal(l);
    }
  }

  lemma {:induction false} CountsMore(leases: seq<Lease>, i: nat)
    requires i < |leases|
    ensures Counts(leases[..i + 1]) == Counts(leases[..i]) + leases[i].count
    ensures Knowns(leases[..i + 1]) == Knowns(leases[..i]) + leases[i].known
  {
    if i > 0 {
      assert leases[..i + 1][1..] == leases[1..][..i] && leases[..i][1..] == leases[1..][..i - 1];
      CountsMore(leases[1..], i - 1);
    } else {
      assert leases[..1][1..] == [] && leases[..0] == [];
    }
  }
}
