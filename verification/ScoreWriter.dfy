/** The streaming store writer: record and payload batches, and what a reader gets back. */
module ScoreWriter {
  import opened Options
  import opened ScoreIndex
  import opened ScoreJoin

  const RECORD_BYTES := 28

  /** An encoded block of a frame, as scanners hand it over. */
  datatype Encoded = Encoded(y0: nat, y1: nat, x0: nat, x1: nat, known: nat, bytes: seq<nat>)

  datatype Item = Item(z: nat, block: Encoded)

  datatype Frames = Frames(z: nat, blocks: seq<Encoded>)

  function ItemsOf(z: nat, blocks: seq<Encoded>): (items: seq<Item>)
    ensures |items| == |blocks| && forall i | 0 <= i < |items| :: items[i] == Item(z, blocks[i])
  {
    seq(|blocks|, i requires 0 <= i < |blocks| => Item(z, blocks[i]))
  }

  function AllItems(frames: seq<Frames>): seq<Item> {
    if frames == [] then []
    else AllItems(frames[..|frames| - 1]) + ItemsOf(frames[|frames| - 1].z, frames[|frames| - 1].blocks)
  }

  predicate Boxed(e: Encoded) {
    e.y0 <= e.y1 && e.x0 <= e.x1
  }

  function RowFor(i: Item, offset: nat): Row
    requires Boxed(i.block)
  {
    Row(i.z, i.block.y0, i.block.x0, i.block.y1 - i.block.y0, i.block.x1 - i.block.x0, offset, |i.block.bytes|)
  }

  predicate AllBoxed(items: seq<Item>) {
    forall i | i in items :: Boxed(i.block)
  }

  function Bytes(items: seq<Item>): seq<nat> {
    if items == [] then [] else Bytes(items[..|items| - 1]) + items[|items| - 1].block.bytes
  }

  function RowsFor(items: seq<Item>): seq<Row>
    requires AllBoxed(items)
  {
    if items == [] then []
    else
      var init := items[..|items| - 1];
      assert AllBoxed(init) by {
        forall i | i in init
          ensures Boxed(i.block)
        {
          assert i in items;
        }
      }
      RowsFor(init) + [RowFor(items[|items| - 1], |Bytes(init)|)]
  }

  /** The bytes a store takes once these items are in it. */
  function StoredBytes(items: seq<Item>): nat {
    |Bytes(items)| + |items| * RECORD_BYTES
  }

  predicate Admits(limit: Option<nat>, items: seq<Item>) {
    limit.Some? && items != [] ==> StoredBytes(items) <= limit.value
  }

  /** A store stays within its limit when its compressed bytes and 28 bytes of index for each block do. */
  lemma {:induction false} LimitMeans(limit: Option<nat>, items: seq<Item>)
    ensures Admits(limit, items) <==>
      limit.None? || items == [] || Lengths(items) + 28 * |items| <= limit.value
  {
    BytesAddUp(items);
  }

  function Lengths(items: seq<Item>): nat {
    if items == [] then 0 else Lengths(items[..|items| - 1]) + |items[|items| - 1].block.bytes|
  }

  lemma {:induction false} BytesAddUp(items: seq<Item>)
    ensures |Bytes(items)| == Lengths(items)
  {
    if items != [] {
      BytesAddUp(items[..|items| - 1]);
    }
  }

  class BlockWriter {
    const batchLimit: nat
    var index: seq<Row>
    var payload: seq<nat>
    var indexBatch: seq<Row>
    var payloadBatch: seq<nat>
    var payloadOffset: nat
    var blocks: nat
    ghost var written: seq<Item>

    /** Files and batches together hold exactly the items written, and the batches stay within the
        limit they were admitted with. */
    ghost predicate Valid()
      reads this
    {
      && AllBoxed(written)
      && index + indexBatch == RowsFor(written)
      && payload + payloadBatch == Bytes(written)
      && payloadOffset == |Bytes(written)|
      && blocks == |written|
      && (indexBatch == [] ==> payloadBatch == [])
      && |indexBatch| * RECORD_BYTES + |payloadBatch| <= batchLimit
    }

    constructor (batchLimit: nat)
      ensures Valid() && written == [] && this.batchLimit == batchLimit
    {
      this.batchLimit := batchLimit;
      index, payload, indexBatch, payloadBatch, payloadOffset, blocks, written := [], [], [], [], 0, 0, [];
    }

    method FlushBatch()
      requires Valid()
      modifies `index, `payload, `indexBatch, `payloadBatch
      ensures Valid() && indexBatch == [] && payloadBatch == []
    {
      if indexBatch == [] {
        return;
      }
      assert index + indexBatch + [] == index + indexBatch && payload + payloadBatch + [] == payload + payloadBatch;
      index := index + indexBatch;
      payload := payload + payloadBatch;
      indexBatch, payloadBatch := [], [];
    }

    /** Puts one block, by way of the batch or past it; refused when the store would outgrow its limit. */
    method Put(z: nat, e: Encoded, limit: Option<nat>) returns (ok: bool)
      requires Valid() && Boxed(e)
      modifies this
      ensures ok <==> (limit.Some? ==> StoredBytes(old(written) + [Item(z, e)]) <= limit.value)
      ensures ok ==> Valid() && written == old(written) + [Item(z, e)]
      ensures !ok ==> written == old(written)
    {
      hide RowsFor, Bytes;
      ghost var item := Item(z, e);
      ItemAppends(written, item);
      if limit.Some? && payloadOffset + |e.bytes| + (blocks + 1) * RECORD_BYTES > limit.value {
        return false;
      }
      var record := Row(z, e.y0, e.x0, e.y1 - e.y0, e.x1 - e.x0, payloadOffset, |e.bytes|);
      var recordBytes := RECORD_BYTES + |e.bytes|;
      if batchLimit > 0 && recordBytes <= batchLimit {
        if |indexBatch| * RECORD_BYTES + |payloadBatch| + recordBytes > batchLimit {
          FlushBatch();
        }
        assert index + (indexBatch + [record]) == index + indexBatch + [record];
        assert payload + (payloadBatch + e.bytes) == payload + payloadBatch + e.bytes;
        indexBatch := indexBatch + [record];
        payloadBatch := payloadBatch + e.bytes;
      } else {
        FlushBatch();
        assert index + [record] + [] == index + [] + [record];
        assert payload + e.bytes + [] == payload + [] + e.bytes;
        index := index + [record];
        payload := payload + e.bytes;
      }
      payloadOffset := payloadOffset + |e.bytes|;
      blocks := blocks + 1;
      written := written + [item];
      ok := true;
    }

    /** One frame's blocks, and a flush after the last. */
    method WriteFrame(z: nat, blocks: seq<Encoded>, limit: Option<nat>, ghost all: seq<Item>) returns (ok: bool)
      requires Valid() && AllBoxed(all) && written + ItemsOf(z, blocks) <= all && Admits(limit, written)
      modifies this
      ensures ok ==> Valid() && written == old(written) + ItemsOf(z, blocks) && Admits(limit, written)
      ensures ok ==> indexBatch == [] && payloadBatch == []
      ensures !ok ==> !Admits(limit, all)
    {
      hide RowsFor, Bytes, StoredBytes;
      ghost var before := written;
      assert blocks[..0] == [] && before + ItemsOf(z, []) == before;
      for b := 0 to |blocks|
        invariant Valid() && written == before + ItemsOf(z, blocks[..b])
        invariant Admits(limit, written)
      {
        BlockAppends(before, z, blocks, b);
        ItemsPrefix(before, z, blocks, b + 1, all);
        BoxedPrefix(all, before + ItemsOf(z, blocks[..b + 1]));
        assert Item(z, blocks[b]) in before + ItemsOf(z, blocks[..b + 1]);
        var done := Put(z, blocks[b], limit);
        if !done {
          StoredGrows(all, before + ItemsOf(z, blocks[..b]) + [Item(z, blocks[b])]);
          return false;
        }
      }
      assert blocks[..|blocks|] == blocks;
      FlushBatch();
      ok := true;
    }

    /** Writes every block of every frame in order, flushing after each frame; refused when the store
        would outgrow its limit. Batching does not show in the files. */
    method WriteBlocks(frames: seq<Frames>, limit: Option<nat>) returns (ok: bool)
      requires Valid() && written == [] && indexBatch == [] && AllBoxed(AllItems(frames))
      modifies this
      ensures ok <==> Admits(limit, AllItems(frames))
      ensures ok ==> index == RowsFor(AllItems(frames)) && payload == Bytes(AllItems(frames))
      ensures ok ==> blocks == |AllItems(frames)|
    {
      hide RowsFor, Bytes, StoredBytes, AllItems;
      assert frames[..0] == [];
      NoItems();
      ghost var all := AllItems(frames);
      for f := 0 to |frames|
        invariant Valid() && written == AllItems(frames[..f]) && indexBatch == [] && payloadBatch == []
        invariant Admits(limit, written)
      {
        FrameAppends(frames, f);
        FramePrefix(frames, f + 1);
        var done := WriteFrame(frames[f].z, frames[f].blocks, limit, all);
        if !done {
          return false;
        }
      }
      assert frames[..|frames|] == frames;
      assert index + [] == index && payload + [] == payload;
      ok := true;
    }
  }

  lemma {:induction false} NoItems()
    ensures AllItems([]) == []
  {
  }

  lemma {:induction false} ItemAppends(items: seq<Item>, i: Item)
    requires AllBoxed(items) && Boxed(i.block)
    ensures AllBoxed(items + [i])
    ensures Bytes(items + [i]) == Bytes(items) + i.block.bytes
    ensures RowsFor(items + [i]) == RowsFor(items) + [RowFor(i, |Bytes(items)|)]
  {
    assert (items + [i])[..|items|] == items;
  }

  lemma {:induction false} FrameAppends(frames: seq<Frames>, f: nat)
    requires f < |frames|
    ensures AllItems(frames[..f + 1]) == AllItems(frames[..f]) + ItemsOf(frames[f].z, frames[f].blocks)
  {
    assert frames[..f + 1][..f] == frames[..f];
  }

  lemma {:induction false} FramePrefix(frames: seq<Frames>, f: nat)
    requires f <= |frames|
    ensures AllItems(frames[..f]) <= AllItems(frames)
    decreases |frames|
  {
    if f < |frames| {
      var init := frames[..|frames| - 1];
      assert init[..f] == frames[..f];
      FramePrefix(init, f);
    } else {
      assert frames[..f] == frames;
    }
  }

  lemma {:induction false} BlockAppends(before: seq<Item>, z: nat, blocks: seq<Encoded>, b: nat)
    requires b < |blocks|
    ensures before + ItemsOf(z, blocks[..b + 1]) == before + ItemsOf(z, blocks[..b]) + [Item(z, blocks[b])]
  {
    assert ItemsOf(z, blocks[..b + 1]) == ItemsOf(z, blocks[..b]) + [Item(z, blocks[b])];
  }

  lemma {:induction false} ItemsPrefix(before: seq<Item>, z: nat, blocks: seq<Encoded>, b: nat, all: seq<Item>)
    requires b <= |blocks| && before + ItemsOf(z, blocks) <= all
    ensures before + ItemsOf(z, blocks[..b]) <= all
  {
    assert ItemsOf(z, blocks[..b]) == ItemsOf(z, blocks)[..b];
  }

  lemma {:induction false} BoxedPrefix(all: seq<Item>, part: seq<Item>)
    requires part <= all && AllBoxed(all)
    ensures AllBoxed(part)
  {
    forall i | i in part
      ensures Boxed(i.block)
    {
      assert i in all;
    }
  }

  lemma {:induction false} StoredGrows(all: seq<Item>, part: seq<Item>)
    requires part <= all
    ensures StoredBytes(part) <= StoredBytes(all)
    decreases |all|
  {
    if |part| < |all| {
      assert part <= all[..|all| - 1];
      StoredGrows(all[..|all| - 1], part);
    } else {
      assert part == all;
    }
  }

  // Reading back

  /** What scanners promise of their blocks. */
  predicate Storable(i: Item, s: Shape) {
    && i.z < s.depth && i.block.y0 < i.block.y1 <= s.height && i.block.x0 < i.block.x1 <= s.width && i.block.bytes != []
  }

  predicate FramesRising(items: seq<Item>) {
    forall i, j | 0 <= i < j < |items| :: items[i].z <= items[j].z
  }

  function StoredBlock(e: Encoded): Block
    requires Boxed(e)
  {
    Block(e.y0, e.x0, e.y1 - e.y0, e.x1 - e.x0, e.bytes)
  }

  /** The blocks of frame `z`, in the order they were written. */
  function BlocksAt(items: seq<Item>, z: int): seq<Block>
    requires AllBoxed(items)
  {
    if items == [] then []
    else
      var init, last := items[..|items| - 1], items[|items| - 1];
      BoxedPrefix(items, init);
      if last.z == z then BlocksAt(init, z) + [StoredBlock(last.block)] else BlocksAt(init, z)
  }

  /** A reader accepts what the writer wrote. */
  lemma {:induction false} WrittenOpens(items: seq<Item>, s: Shape)
    requires AllBoxed(items) && FramesRising(items) && forall i | i in items :: Storable(i, s)
    ensures Chained(RowsFor(items), 0) && FramesRise(RowsFor(items), 0) && AllInside(RowsFor(items), s)
    ensures EndOf(RowsFor(items), 0) == |Bytes(items)|
    ensures LastFrame(RowsFor(items), 0) == if items == [] then 0 else items[|items| - 1].z
  {
    hide Chained, FramesRise, AllInside, LastFrame, EndOf;
    if items == [] {
      EmptyFrom(0, 0, s);
      NoRows();
    } else {
      var init, last := items[..|items| - 1], items[|items| - 1];
      BoxedPrefix(items, init);
      forall i | i in init
        ensures Storable(i, s)
      {
        assert i in items;
      }
      WrittenOpens(init, s);
      assert last in items;
      var frame := if init == [] then 0 else init[|init| - 1].z;
      RowAppends(RowsFor(init), RowFor(last, |Bytes(init)|), |Bytes(init)|, frame, s);
    }
  }

  lemma {:induction false} NoRows()
    ensures LastFrame([], 0) == 0
  {
  }

  lemma {:induction false} RowAppends(rows: seq<Row>, r: Row, end: nat, frame: nat, s: Shape)
    requires Chained(rows, 0) && FramesRise(rows, 0) && AllInside(rows, s)
    requires EndOf(rows, 0) == end == r.offset && LastFrame(rows, 0) == frame <= r.z && RowInside(r, s)
    ensures Chained(rows + [r], 0) && FramesRise(rows + [r], 0) && AllInside(rows + [r], s)
    ensures EndOf(rows + [r], 0) == r.offset + r.length && LastFrame(rows + [r], 0) == r.z
  {
    hide Chained, FramesRise, AllInside;
    OneRow(r, s);
    RisesTo(r, frame);
    ChainedJoin(rows, [r], 0);
    FramesJoin(rows, [r], 0);
    InsideJoin(rows, [r], s);
  }

  lemma {:induction false} OneRow(r: Row, s: Shape)
    requires RowInside(r, s)
    ensures Chained([r], r.offset) && AllInside([r], s)
  {
  }

  lemma {:induction false} RisesTo(r: Row, first: nat)
    requires first <= r.z
    ensures FramesRise([r], first)
  {
  }

  lemma {:induction false} BlocksNext(items: seq<Item>, i: Item, z: int)
    requires AllBoxed(items) && Boxed(i.block)
    ensures AllBoxed(items + [i])
    ensures BlocksAt(items + [i], z) == BlocksAt(items, z) + if i.z == z then [StoredBlock(i.block)] else []
  {
    assert (items + [i])[..|items|] == items;
  }

  lemma {:induction false} NothingWritten(post: seq<nat>, z: int)
    ensures AllBoxed([]) && RowsFor([]) == [] && Bytes([]) == []
    ensures Backed([], post) && FrameOf([], post, z) == BlocksAt([], z) == []
  {
  }

  /** The last row points at the last block's bytes, whatever follows them. */
  lemma {:induction false} LastRowReads(before: seq<nat>, i: Item, post: seq<nat>, z: int)
    requires Boxed(i.block)
    ensures Backed([RowFor(i, |before|)], before + i.block.bytes + post)
    ensures FrameOf([RowFor(i, |before|)], before + i.block.bytes + post, z)
         == if i.z == z then [StoredBlock(i.block)] else []
  {
    hide FrameOf;
    var row, whole := RowFor(i, |before|), before + i.block.bytes + post;
    assert whole[row.offset..row.offset + row.length] == i.block.bytes;
    OneFrame(row, whole, z);
  }

  /** Reading a frame back gives exactly its blocks, in order, whatever follows in the payload. */
  lemma {:induction false} WrittenReads(items: seq<Item>, post: seq<nat>, z: int)
    requires AllBoxed(items)
    ensures Backed(RowsFor(items), Bytes(items) + post)
    ensures FrameOf(RowsFor(items), Bytes(items) + post, z) == BlocksAt(items, z)
    decreases |items|
  {
    hide RowsFor, Bytes, BlocksAt, FrameOf, Backed, StoredBlock, RowFor, Boxed;
    if items == [] {
      NothingWritten(post, z);
      assert [] + post == post;
    } else {
      var init, last := items[..|items| - 1], items[|items| - 1];
      assert items == init + [last];
      BoxedPrefix(items, init);
      ItemAppends(init, last);
      BlocksNext(init, last, z);
      var more := last.block.bytes + post;
      assert Bytes(items) + post == Bytes(init) + more == Bytes(init) + last.block.bytes + post;
      WrittenReads(init, more, z);
      LastRowReads(Bytes(init), last, post, z);
      FrameJoin(RowsFor(init), [RowFor(last, |Bytes(init)|)], Bytes(items) + post, z);
    }
  }

  lemma {:induction false} OneFrame(r: Row, payload: seq<nat>, z: int)
    requires r.offset + r.length <= |payload|
    ensures FrameOf([r], payload, z) == if r.z == z then [BlockOf(r, payload)] else []
  {
    assert [r][1..] == [];
  }

  /** The round trip of a store: readers accept it and return each frame's blocks in order. */
  lemma {:induction false} StoreRoundTrip(items: seq<Item>, s: Shape, z: int)
    requires AllBoxed(items) && FramesRising(items) && forall i | i in items :: Storable(i, s)
    ensures Opens(Store(s, RowsFor(items), Bytes(items)))
    ensures Frame(Store(s, RowsFor(items), Bytes(items)), z) == BlocksAt(items, z)
  {
    WrittenOpens(items, s);
    WrittenReads(items, [], z);
    assert Bytes(items) + [] == Bytes(items);
  }
}
