/** The block index of a sparse score store: its records, what makes them valid, and the chunked check. */
module ScoreIndex {
  import AxisRanges

  const TWO32 := 0x1_0000_0000
  const TWO64 := 0x1_0000_0000_0000_0000

  datatype Shape = Shape(depth: nat, height: nat, width: nat)

  /** One fixed-width record: frame, corner, extent, and where its compressed bytes lie. */
  datatype Row = Row(z: nat, y: nat, x: nat, h: nat, w: nat, offset: nat, length: nat)

  predicate RowFits(r: Row) {
    r.z < TWO32 && r.y < TWO32 && r.x < TWO32 && r.h < 0x1_0000 && r.w < 0x1_0000 && r.offset < TWO64
        && r.length < TWO32
  }

  predicate AllFit(rows: seq<Row>) {
    forall r | r in rows :: RowFits(r)
  }

  predicate RowInside(r: Row, s: Shape) {
    r.z < s.depth && r.h > 0 && r.w > 0 && r.length > 0 && r.y + r.h <= s.height && r.x + r.w <= s.width
  }

  predicate AllInside(rows: seq<Row>, s: Shape) {
    forall r | r in rows :: RowInside(r, s)
  }

  /** Each record's bytes begin where the previous record's end. */
  predicate Chained(rows: seq<Row>, start: nat) {
    && (rows != [] ==> rows[0].offset == start)
    && forall i | 0 < i < |rows| :: rows[i].offset == rows[i - 1].offset + rows[i - 1].length
  }

  /** A sum of 64-bit offsets. */
  function Wrapped(n: nat): nat {
    n % TWO64
  }

  /** The same as 64-bit arithmetic sees it. */
  predicate ChainedModulo(rows: seq<Row>, start: nat) {
    && (rows != [] ==> rows[0].offset == start)
    && forall i | 0 < i < |rows| :: rows[i].offset == Wrapped(rows[i - 1].offset + rows[i - 1].length)
  }

  function EndOf(rows: seq<Row>, start: nat): nat {
    if rows == [] then start else rows[|rows| - 1].offset + rows[|rows| - 1].length
  }

  predicate FramesRise(rows: seq<Row>, first: nat) {
    && (rows != [] ==> rows[0].z >= first)
    && forall i | 0 < i < |rows| :: rows[i - 1].z <= rows[i].z
  }

  function LastFrame(rows: seq<Row>, first: nat): nat {
    if rows == [] then first else rows[|rows| - 1].z
  }

  /** Readers accept exactly these: contiguous bytes, frames in order, everything inside the grid,
      and no byte of the payload left over. */
  predicate ValidIndex(rows: seq<Row>, s: Shape, payloadBytes: nat) {
    Chained(rows, 0) && FramesRise(rows, 0) && AllInside(rows, s) && EndOf(rows, 0) == payloadBytes
  }

  // Joining pieces of an index

  lemma {:induction false} ChainedJoin(a: seq<Row>, b: seq<Row>, start: nat)
    ensures Chained(a + b, start) <==> Chained(a, start) && Chained(b, EndOf(a, start))
    ensures EndOf(a + b, start) == EndOf(b, EndOf(a, start))
  {
    var c := a + b;
    if Chained(c, start) {
      forall i | 0 < i < |a|
        ensures a[i].offset == a[i - 1].offset + a[i - 1].length
      {
        assert c[i] == a[i] && c[i - 1] == a[i - 1];
      }
      forall i | 0 < i < |b|
        ensures b[i].offset == b[i - 1].offset + b[i - 1].length
      {
        assert c[|a| + i] == b[i] && c[|a| + i - 1] == b[i - 1];
      }
      if a != [] && b != [] {
        assert c[|a|] == b[0] && c[|a| - 1] == a[|a| - 1];
      }
    }
  }

  lemma {:induction false} FramesJoin(a: seq<Row>, b: seq<Row>, first: nat)
    ensures FramesRise(a + b, first) <==> FramesRise(a, first) && FramesRise(b, LastFrame(a, first))
    ensures LastFrame(a + b, first) == LastFrame(b, LastFrame(a, first))
  {
    var c := a + b;
    if FramesRise(c, first) {
      forall i | 0 < i < |a|
        ensures a[i - 1].z <= a[i].z
      {
        assert c[i] == a[i] && c[i - 1] == a[i - 1];
      }
      forall i | 0 < i < |b|
        ensures b[i - 1].z <= b[i].z
      {
        assert c[|a| + i] == b[i] && c[|a| + i - 1] == b[i - 1];
      }
      if a != [] && b != [] {
        assert c[|a|] == b[0] && c[|a| - 1] == a[|a| - 1];
      }
    }
  }

  lemma {:induction false} InsideJoin(a: seq<Row>, b: seq<Row>, s: Shape)
    ensures AllInside(a + b, s) <==> AllInside(a, s) && AllInside(b, s)
  {
    assert forall r :: r in a + b <==> r in a || r in b;
  }

  /** Frames in order are in order for every pair. */
  lemma {:induction false} FramesSorted(rows: seq<Row>, first: nat, i: nat, j: nat)
    requires FramesRise(rows, first) && i <= j < |rows|
    ensures first <= rows[i].z <= rows[j].z
    decreases j
  {
    if i < j {
      FramesSorted(rows, first, i, j - 1);
    } else if i > 0 {
      FramesSorted(rows, first, i - 1, i - 1);
    }
  }

  lemma {:induction false} ChainEnds(rows: seq<Row>, start: nat)
    requires Chained(rows, start) && rows != []
    ensures var init, last := rows[..|rows| - 1], rows[|rows| - 1];
            Chained(init, start) && last.offset == EndOf(init, start)
  {
    var init, last := rows[..|rows| - 1], rows[|rows| - 1];
    assert rows == init + [last];
    ChainedJoin(init, [last], start);
  }

  /** Every record ends inside a payload that the chain ends inside. */
  lemma {:induction false} ChainBounds(rows: seq<Row>, start: nat, i: nat)
    requires Chained(rows, start) && i < |rows|
    ensures start <= rows[i].offset && rows[i].offset + rows[i].length <= EndOf(rows, start)
    decreases |rows|
  {
    hide Chained;
    ChainEnds(rows, start);
    var init := rows[..|rows| - 1];
    if i < |init| {
      ChainBounds(init, start, i);
    } else if init != [] {
      ChainBounds(init, start, |init| - 1);
    }
  }

  // Width

  /** The bytes that the lengths of the records add up to. */
  function Total(rows: seq<Row>): nat {
    if rows == [] then 0 else Total(rows[..|rows| - 1]) + rows[|rows| - 1].length
  }

  lemma {:induction false} NoTotal(rows: seq<Row>)
    ensures Total(rows[..0]) == 0
  {
  }

  lemma {:induction false} TotalGrows(rows: seq<Row>, i: nat)
    requires i <= |rows|
    ensures Total(rows[..i]) <= Total(rows)
    decreases |rows|
  {
    if i < |rows| {
      assert rows[..|rows| - 1][..i] == rows[..i];
      TotalGrows(rows[..|rows| - 1], i);
    } else {
      assert rows[..i] == rows;
    }
  }

  lemma {:induction false} TotalAt(rows: seq<Row>, i: nat)
    requires 0 < i <= |rows|
    ensures Total(rows[..i]) == Total(rows[..i - 1]) + rows[i - 1].length
  {
    assert rows[..i][..i - 1] == rows[..i - 1];
  }

  /** A chain ends as far from its start as its records are long together. */
  lemma {:induction false} ChainTotal(rows: seq<Row>, start: nat)
    requires Chained(rows, start)
    ensures EndOf(rows, start) == start + Total(rows)
  {
    hide Chained;
    if rows != [] {
      ChainEnds(rows, start);
      ChainTotal(rows[..|rows| - 1], start);
    }
  }

  /** A chain of records whose fields fit looks the same in 64-bit arithmetic. */
  lemma {:induction false} ChainFits(rows: seq<Row>, start: nat)
    requires AllFit(rows) && Chained(rows, start)
    ensures ChainedModulo(rows, start)
  {
    forall i | 0 < i < |rows|
      ensures rows[i].offset == Wrapped(rows[i - 1].offset + rows[i - 1].length)
    {
      assert rows[i] in rows;
    }
  }

  // The reader's check

  predicate Links(a: Row, b: Row, exact: bool) {
    b.offset == if exact then a.offset + a.length else Wrapped(a.offset + a.length)
  }

  /** What a check by chunks sees of a chain: 64-bit sums inside a chunk, exact ones between chunks. */
  predicate Linked(rows: seq<Row>, chunk: nat)
    requires chunk >= 1
  {
    && (rows != [] ==> rows[0].offset == 0)
    && forall i | 0 < i < |rows| :: Links(rows[i - 1], rows[i], i % chunk == 0)
  }

  /** The indices that a reader accepts. */
  predicate Accepted(rows: seq<Row>, s: Shape, payloadBytes: nat, chunk: nat)
    requires chunk >= 1
  {
    Linked(rows, chunk) && FramesRise(rows, 0) && AllInside(rows, s) && EndOf(rows, 0) == payloadBytes
  }

  lemma {:induction false} InChunk(a: nat, j: nat, chunk: nat)
    requires chunk >= 1 && a % chunk == 0 && j < chunk
    ensures (a + j) % chunk == j
  {
    var q := a / chunk;
    assert a == q * chunk + a % chunk;
    AxisRanges.FloorMeans(a + j, chunk, q);
    assert a + j == (a + j) / chunk * chunk + (a + j) % chunk;
  }

  lemma {:induction false} LinkedPrefix(rows: seq<Row>, chunk: nat, i: nat)
    requires chunk >= 1 && i <= |rows| && Linked(rows, chunk)
    ensures Linked(rows[..i], chunk)
  {
    forall k | 0 < k < i
      ensures Links(rows[..i][k - 1], rows[..i][k], k % chunk == 0)
    {
      assert Links(rows[k - 1], rows[k], k % chunk == 0);
    }
  }

  lemma {:induction false} PartLinks(done: seq<Row>, part: seq<Row>, chunk: nat, j: nat)
    requires chunk >= 1 && |done| % chunk == 0 && 0 < j < |part| <= chunk
    ensures var all, i := done + part, |done| + j;
            Links(all[i - 1], all[i], i % chunk == 0)
            <==> part[j].offset == Wrapped(part[j - 1].offset + part[j - 1].length)
  {
    hide Wrapped;
    InChunk(|done|, j, chunk);
  }

  lemma {:induction false} LinkedParts(done: seq<Row>, part: seq<Row>, chunk: nat)
    requires chunk >= 1 && |done| % chunk == 0 && |part| <= chunk && Linked(done + part, chunk)
    ensures ChainedModulo(part, EndOf(done, 0))
  {
    hide Links, Wrapped;
    var all, n := done + part, |done|;
    forall j | 0 < j < |part|
      ensures part[j].offset == Wrapped(part[j - 1].offset + part[j - 1].length)
    {
      assert Links(all[n + j - 1], all[n + j], (n + j) % chunk == 0);
      PartLinks(done, part, chunk, j);
    }
    if done != [] && part != [] {
      assert Links(all[n - 1], all[n], n % chunk == 0);
      LinksMean(all[n - 1], all[n]);
    }
  }

  lemma {:induction false} PartsLinked(done: seq<Row>, part: seq<Row>, chunk: nat)
    requires chunk >= 1 && |done| % chunk == 0 && |part| <= chunk && Linked(done, chunk)
    requires ChainedModulo(part, EndOf(done, 0))
    ensures Linked(done + part, chunk)
  {
    hide Links, Wrapped;
    var all, n := done + part, |done|;
    forall i | 0 < i < |all|
      ensures Links(all[i - 1], all[i], i % chunk == 0)
    {
      if i < n {
        assert Links(done[i - 1], done[i], i % chunk == 0);
      } else if i > n {
        PartLinks(done, part, chunk, i - n);
      } else {
        LinksMean(all[n - 1], all[n]);
      }
    }
  }

  /** One more chunk: its first record links exactly to the rows before it, the others by 64-bit sums. */
  lemma {:induction false} LinkedJoin(done: seq<Row>, part: seq<Row>, chunk: nat)
    requires chunk >= 1 && |done| % chunk == 0 && |part| <= chunk && Linked(done, chunk)
    ensures Linked(done + part, chunk) <==> ChainedModulo(part, EndOf(done, 0))
  {
    hide *;
    if Linked(done + part, chunk) {
      LinkedParts(done, part, chunk);
    }
    if ChainedModulo(part, EndOf(done, 0)) {
      PartsLinked(done, part, chunk);
    }
  }

  lemma {:induction false} LinksMean(a: Row, b: Row)
    ensures Links(a, b, true) <==> b.offset == a.offset + a.length
    ensures Links(a, b, false) <==> b.offset == Wrapped(a.offset + a.length)
  {
  }

  lemma {:induction false} WrappedAdds(a: nat, b: nat)
    ensures Wrapped(Wrapped(a) + b) == Wrapped(a + b)
    ensures a < TWO64 ==> Wrapped(a) == a
  {
  }

  /** A linked record begins where the records before it end, as 64-bit sums go. */
  lemma {:induction false} LinkedTotal(rows: seq<Row>, chunk: nat, i: nat)
    requires chunk >= 1 && AllFit(rows) && Linked(rows, chunk) && i < |rows|
    ensures rows[i].offset == Wrapped(Total(rows[..i]))
  {
    hide Wrapped, Links, Total;
    assert rows[i] in rows;
    WrappedAdds(rows[i].offset, 0);
    if i > 0 {
      LinkedTotal(rows, chunk, i - 1);
      TotalAt(rows, i);
      assert Links(rows[i - 1], rows[i], i % chunk == 0);
      LinksMean(rows[i - 1], rows[i]);
      WrappedAdds(Total(rows[..i - 1]), rows[i - 1].length);
    } else {
      NoTotal(rows);
      WrappedAdds(0, 0);
    }
  }

  /** Exactly when no sum leaves 64 bits, links make a chain. */
  lemma {:induction false} LinkedIsChained(rows: seq<Row>, chunk: nat)
    requires chunk >= 1 && AllFit(rows)
    ensures Chained(rows, 0) <==> Linked(rows, chunk) && EndOf(rows, 0) == Total(rows)
  {
    if Chained(rows, 0) {
      ChainTotal(rows, 0);
      ChainLinks(rows, chunk);
    }
    if Linked(rows, chunk) && EndOf(rows, 0) == Total(rows) {
      forall i | 0 <= i < |rows|
        ensures rows[i].offset == Total(rows[..i])
      {
        NothingWraps(rows, chunk, i);
      }
      forall i | 0 < i < |rows|
        ensures rows[i].offset == rows[i - 1].offset + rows[i - 1].length
      {
        TotalAt(rows, i);
      }
    }
  }

  lemma {:induction false} NothingWraps(rows: seq<Row>, chunk: nat, i: nat)
    requires chunk >= 1 && AllFit(rows) && Linked(rows, chunk) && EndOf(rows, 0) == Total(rows) && i < |rows|
    ensures rows[i].offset == Total(rows[..i])
  {
    hide Linked;
    var last := |rows| - 1;
    assert rows[last] in rows;
    TotalAt(rows, |rows|);
    assert rows[..|rows|] == rows && rows[..last][..i] == rows[..i];
    TotalGrows(rows[..last], i);
    LinkedTotal(rows, chunk, i);
  }

  lemma {:induction false} ChainLinks(rows: seq<Row>, chunk: nat)
    requires chunk >= 1 && AllFit(rows) && Chained(rows, 0)
    ensures Linked(rows, chunk)
  {
    ChainFits(rows, 0);
    forall i | 0 < i < |rows|
      ensures Links(rows[i - 1], rows[i], i % chunk == 0)
    {
      assert rows[i].offset == rows[i - 1].offset + rows[i - 1].length;
      assert rows[i].offset == Wrapped(rows[i - 1].offset + rows[i - 1].length);
    }
  }

  /** Readers accept every valid index, and any other that they accept gives itself away by its lengths:
      an accepted index is valid if and only if they add up to the payload. */
  lemma {:induction false} AcceptedIsValid(rows: seq<Row>, s: Shape, payloadBytes: nat, chunk: nat)
    requires chunk >= 1 && AllFit(rows)
    ensures ValidIndex(rows, s, payloadBytes) <==>
              Accepted(rows, s, payloadBytes, chunk) && Total(rows) == payloadBytes
  {
    hide Chained, Linked, FramesRise, AllInside, EndOf, AllFit;
    LinkedIsChained(rows, chunk);
    if Chained(rows, 0) {
      ChainTotal(rows, 0);
    }
  }

  lemma {:induction false} TotalBound(rows: seq<Row>)
    requires AllFit(rows)
    ensures Total(rows) <= |rows| * (TWO32 - 1)
  {
    if rows != [] {
      var init := rows[..|rows| - 1];
      assert forall r | r in init :: r in rows;
      TotalBound(init);
      assert rows[|rows| - 1] in rows;
    }
  }

  lemma {:induction false} ShortEnds(rows: seq<Row>, chunk: nat)
    requires chunk >= 1 && AllFit(rows) && Linked(rows, chunk) && Total(rows) < TWO64
    ensures EndOf(rows, 0) == Total(rows)
  {
    hide Linked, AllFit, Wrapped, Total;
    if rows != [] {
      var last := |rows| - 1;
      assert rows[..|rows|] == rows;
      TotalAt(rows, |rows|);
      LinkedTotal(rows, chunk, last);
      WrappedAdds(Total(rows[..last]), 0);
    } else {
      NoTotal(rows);
      assert rows[..0] == rows;
    }
  }

  /** Up to 2^32 records the readers accept the valid indices and no others. */
  lemma {:induction false} NoWrap(rows: seq<Row>, s: Shape, payloadBytes: nat, chunk: nat)
    requires chunk >= 1 && AllFit(rows) && |rows| <= TWO32
    ensures Accepted(rows, s, payloadBytes, chunk) <==> ValidIndex(rows, s, payloadBytes)
  {
    hide Linked, FramesRise, AllInside, AllFit, Total, EndOf, ValidIndex;
    AcceptedIsValid(rows, s, payloadBytes, chunk);
    TotalBound(rows);
    if Accepted(rows, s, payloadBytes, chunk) {
      ShortEnds(rows, chunk);
    }
  }

  const LONGEST := TWO32 - 1

  /** One more record of the greatest length than 64-bit offsets can hold, all of the one pixel. */
  function Overlong(): (rows: seq<Row>)
    ensures |rows| == TWO32 + 3
    ensures forall k | 0 <= k < |rows| :: rows[k] == Row(0, 0, 0, 1, 1, Wrapped(k * LONGEST), LONGEST)
  {
    seq(TWO32 + 3, k requires 0 <= k < TWO32 + 3 => Row(0, 0, 0, 1, 1, Wrapped(k * LONGEST), LONGEST))
  }

  lemma {:induction false} OverlongOffset(k: nat)
    requires k < TWO32 + 3
    ensures Wrapped(k * LONGEST) == if k < TWO32 + 2 then k * LONGEST else LONGEST - 1
  {
  }

  lemma {:induction false} OverlongLinks(i: nat)
    requires 0 < i < TWO32 + 3
    ensures Links(Overlong()[i - 1], Overlong()[i], i % 65536 == 0)
  {
    hide Overlong, Wrapped;
    OverlongOffset(i - 1);
    OverlongOffset(i);
    if i == TWO32 + 2 {
      OverlongWraps();
    } else {
      WrappedAdds(i * LONGEST, 0);
    }
  }

  lemma {:induction false} OverlongLinked()
    ensures Linked(Overlong(), 65536)
  {
    hide Overlong, Wrapped, Links;
    OverlongOffset(0);
    forall i | 0 < i < |Overlong()|
      ensures Links(Overlong()[i - 1], Overlong()[i], i % 65536 == 0)
    {
      OverlongLinks(i);
    }
  }

  lemma {:induction false} OverlongFits()
    ensures AllFit(Overlong()) && AllInside(Overlong(), Shape(1, 1, 1)) && FramesRise(Overlong(), 0)
  {
    hide Overlong, Wrapped;
    forall k | 0 <= k < |Overlong()|
      ensures Overlong()[k].offset < TWO64
    {
      OverlongOffset(k);
    }
  }

  lemma {:induction false} OverlongWraps()
    ensures Wrapped((TWO32 + 1) * LONGEST + LONGEST) == LONGEST - 1 && (TWO32 + 2) % 65536 != 0
  {
  }

  lemma {:induction false} OverlongTotal(n: nat)
    requires n <= |Overlong()|
    ensures Total(Overlong()[..n]) == n * LONGEST
  {
    hide Overlong;
    if n > 0 {
      TotalAt(Overlong(), n);
      OverlongTotal(n - 1);
    }
  }

  /** The bound is sharp: here is an index that fits its fields, that a reader accepts in chunks of its
      own size, and that is no chain, its last offset having come round. */
  lemma {:induction false} WrappedIsAccepted()
    ensures var rows, s, bytes := Overlong(), Shape(1, 1, 1), 2 * TWO32 - 3;
      && AllFit(rows) && Accepted(rows, s, bytes, 65536)
      && !ValidIndex(rows, s, bytes) && Total(rows) == bytes + TWO64
  {
    hide Overlong, Wrapped, AllFit, AllInside, FramesRise, Linked, Total, ValidIndex;
    var rows, s, bytes := Overlong(), Shape(1, 1, 1), 2 * TWO32 - 3;
    OverlongLinked();
    OverlongFits();
    OverlongOffset(TWO32 + 2);
    OverlongTotal(|rows|);
    assert rows[..|rows|] == rows;
    AcceptedIsValid(rows, s, bytes, 65536);
  }

  predicate ChunkAccepted(rows: seq<Row>, s: Shape, previousEnd: nat, previousFrame: nat) {
    ChainedModulo(rows, previousEnd) && FramesRise(rows, previousFrame) && AllInside(rows, s)
  }

  lemma {:induction false} FitJoin(a: seq<Row>, b: seq<Row>)
    ensures AllFit(a + b) <==> AllFit(a) && AllFit(b)
  {
    assert forall r :: r in a + b <==> r in a || r in b;
  }

  /** The rows checked so far. */
  predicate Passing(done: seq<Row>, s: Shape, chunk: nat)
    requires chunk >= 1
  {
    Linked(done, chunk) && FramesRise(done, 0) && AllInside(done, s)
  }

  lemma {:induction false} ChunkVerdict(rows: seq<Row>, first: nat, stop: nat, s: Shape, chunk: nat)
    requires chunk >= 1 && first < stop <= |rows| && first % chunk == 0 && stop - first <= chunk
    requires Passing(rows[..first], s, chunk)
    ensures var done, part := rows[..first], rows[first..stop];
      && (ChunkAccepted(part, s, EndOf(done, 0), LastFrame(done, 0)) <==> Passing(rows[..stop], s, chunk))
      && EndOf(rows[..stop], 0) == part[|part| - 1].offset + part[|part| - 1].length
      && LastFrame(rows[..stop], 0) == part[|part| - 1].z
    ensures Passing(rows, s, chunk) ==> Passing(rows[..stop], s, chunk)
  {
    hide Linked, FramesRise, AllInside, ChainedModulo;
    var done, part, rest := rows[..first], rows[first..stop], rows[stop..];
    assert rows[..stop] == done + part && rows == rows[..stop] + rest;
    LinkedJoin(done, part, chunk);
    FramesJoin(done, part, 0);
    InsideJoin(done, part, s);
    if Passing(rows, s, chunk) {
      LinkedPrefix(rows, chunk, stop);
      FramesJoin(rows[..stop], rest, 0);
      InsideJoin(rows[..stop], rest, s);
    }
  }

  ghost predicate Summed(rows: seq<Row>) {
    forall i: nat | i < |rows| :: rows[i].offset == Total(rows[..i])
  }

  lemma {:induction false} SummedMore(init: seq<Row>, last: Row)
    ensures Summed(init + [last]) <==> Summed(init) && last.offset == Total(init)
  {
    hide Total;
    var rows := init + [last];
    assert rows[..|init|] == init && rows[|init|] == last;
    forall i: nat | i < |init|
      ensures rows[i] == init[i] && rows[..i] == init[..i]
    {
    }
    if Summed(rows) {
      forall i: nat | i < |init|
        ensures init[i].offset == Total(init[..i])
      {
        assert rows[i].offset == Total(rows[..i]);
      }
      assert rows[|init|].offset == Total(rows[..|init|]);
    }
  }

  lemma {:induction false} ChainedIsSummed(rows: seq<Row>)
    ensures Chained(rows, 0) <==> Summed(rows)
    ensures Chained(rows, 0) ==> EndOf(rows, 0) == Total(rows)
    decreases |rows|
  {
    if rows != [] {
      var init, last := rows[..|rows| - 1], rows[|rows| - 1];
      ChainedIsSummed(init);
      assert rows == init + [last];
      ChainedJoin(init, [last], 0);
      SummedMore(init, last);
      LastLinks(init, last);
      hide Chained, Summed;
    }
  }

  lemma {:induction false} OffsetsAreSums(rows: seq<Row>)
    ensures Chained(rows, 0) <==> forall i: nat | i < |rows| :: rows[i].offset == Total(rows[..i])
    ensures Chained(rows, 0) ==> EndOf(rows, 0) == Total(rows)
  {
    hide Chained, Total, EndOf;
    ChainedIsSummed(rows);
  }

  lemma {:induction false} LastLinks(init: seq<Row>, last: Row)
    ensures Chained([last], EndOf(init, 0)) <==> last.offset == EndOf(init, 0)
    ensures EndOf(init + [last], 0) == last.offset + last.length
    ensures Total(init + [last]) == Total(init) + last.length
  {
    assert (init + [last])[..|init + [last]| - 1] == init;
  }

  /** What a valid index says: every block is a nonempty rectangle inside its plane of the volume, frames
      never go back, and the compressed bytes, none empty, fill the payload one behind the other. */
  lemma {:induction false} ValidMeans(rows: seq<Row>, s: Shape, payloadBytes: nat)
    ensures ValidIndex(rows, s, payloadBytes) <==>
      && (forall i: nat | i < |rows| ::
            && rows[i].z < s.depth && 0 < rows[i].h && 0 < rows[i].w && 0 < rows[i].length
            && rows[i].y + rows[i].h <= s.height && rows[i].x + rows[i].w <= s.width
            && rows[i].offset == Total(rows[..i]))
      && (forall i: nat, j: nat | i < j < |rows| :: rows[i].z <= rows[j].z)
      && Total(rows) == payloadBytes
  {
    OffsetsAreSums(rows);
    hide Chained, EndOf, Total;
    if FramesRise(rows, 0) {
      forall i: nat, j: nat | i < j < |rows|
        ensures rows[i].z <= rows[j].z
      {
        FramesSorted(rows, 0, i, j);
      }
    }
    if AllInside(rows, s) {
      forall i: nat | i < |rows|
        ensures RowInside(rows[i], s)
      {
        assert rows[i] in rows;
      }
    }
  }

  /** Checks the index chunk by chunk, as a reader does when it opens a store. */
  method ValidateIndex(rows: seq<Row>, s: Shape, payloadBytes: nat, chunk: nat) returns (ok: bool)
    requires chunk >= 1 && AllFit(rows)
    ensures ok <==> Accepted(rows, s, payloadBytes, chunk)
    ensures ValidIndex(rows, s, payloadBytes) <==> ok && Total(rows) == payloadBytes
  {
    AcceptedIsValid(rows, s, payloadBytes, chunk);
    hide Passing, ChunkAccepted, EndOf, LastFrame, AllFit, Total, ValidIndex;
    var first: nat, previousEnd: nat, previousFrame: nat := 0, 0, 0;
    EmptyIndex(s, chunk);
    assert rows[..0] == [];
    while first < |rows|
      invariant 0 <= first <= |rows| && (first < |rows| ==> first % chunk == 0)
      invariant Passing(rows[..first], s, chunk)
      invariant previousEnd == EndOf(rows[..first], 0) && previousFrame == LastFrame(rows[..first], 0)
    {
      var stop := if first + chunk < |rows| then first + chunk else |rows|;
      var part := rows[first..stop];
      ChunkVerdict(rows, first, stop, s, chunk);
      NextChunk(first, chunk);
      if !ChunkAccepted(part, s, previousEnd, previousFrame) {
        AcceptedPassing(rows, s, payloadBytes, chunk);
        return false;
      }
      previousEnd := part[|part| - 1].offset + part[|part| - 1].length;
      previousFrame := part[|part| - 1].z;
      first := stop;
    }
    assert rows[..first] == rows;
    AcceptedPassing(rows, s, payloadBytes, chunk);
    ok := previousEnd == payloadBytes;
  }

  lemma {:induction false} NextChunk(first: nat, chunk: nat)
    requires chunk >= 1 && first % chunk == 0
    ensures (first + chunk) % chunk == 0
  {
    var q := first / chunk;
    assert first == q * chunk;
    assert first + chunk == (q + 1) * chunk;
    AxisRanges.FloorMeans(first + chunk, chunk, q + 1);
    assert first + chunk == (first + chunk) / chunk * chunk + (first + chunk) % chunk;
  }

  lemma {:induction false} AcceptedPassing(rows: seq<Row>, s: Shape, payloadBytes: nat, chunk: nat)
    requires chunk >= 1
    ensures Accepted(rows, s, payloadBytes, chunk) <==> Passing(rows, s, chunk) && EndOf(rows, 0) == payloadBytes
  {
  }

  lemma {:induction false} EmptyIndex(s: Shape, chunk: nat)
    requires chunk >= 1
    ensures Passing([], s, chunk) && EndOf([], 0) == 0 && LastFrame([], 0) == 0
  {
  }
}
