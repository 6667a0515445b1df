/** Reading a frame back to pixels: the bounded decoder, and the round trip from plane to plane. */
module ScoreReader {
  import opened Options
  import opened ScoreBlocks
  import opened ScoreCapture
  import opened ScoreCropper
  import opened ScoreEncode
  import opened ScoreIndex
  import opened ScoreJoin
  import opened ScoreOverlay
  import W = ScoreWriter

  // Decoding a block

  /** What a compressed stream holds: its raw bytes and whatever follows its end. */
  datatype Stream = Stream(raw: seq<nat>, rest: seq<nat>) | Broken

  /** A block decodes when its stream ends within it, nothing follows, and the pixels are as many as its box has. */
  function Decoded(b: Block, inflate: seq<nat> -> Stream): Option<seq<nat>> {
    match inflate(b.bytes)
    case Stream(raw, rest) => if |raw| == Times(b.h, b.w) && rest == [] then Some(raw) else None
    case Broken => None
  }

  /** A decoded block: its box and its pixels, row by row. */
  datatype Crop = Crop(box: Box, raw: seq<nat>)

  datatype Reading = OutOfGrid | Malformed | Crops(crops: seq<Crop>)

  function CropOf(b: Block, raw: seq<nat>): Crop {
    Crop(Box(b.y, b.y + b.h, b.x, b.x + b.w), raw)
  }

  /** The blocks decoded one after another; the first that does not decode ends the reading. */
  function AllDecoded(blocks: seq<Block>, inflate: seq<nat> -> Stream): Reading {
    if blocks == [] then Crops([])
    else
      var init, last := AllDecoded(blocks[..|blocks| - 1], inflate), blocks[|blocks| - 1];
      if !init.Crops? then Malformed
      else
        var raw := Decoded(last, inflate);
        if raw.None? then Malformed else Crops(init.crops + [CropOf(last, raw.value)])
  }

  /** The frame reads exactly when every stream ends within its block, nothing follows it, and it holds as many
      bytes as the block has pixels; then each crop has its block's box and bytes, in order. A stream that is
      broken, too short, too long or followed by anything spoils the frame. */
  lemma {:induction false} FrameReads(blocks: seq<Block>, inflate: seq<nat> -> Stream)
    ensures if forall b <- blocks :: inflate(b.bytes).Stream? && |inflate(b.bytes).raw| == b.h * b.w
                                     && inflate(b.bytes).rest == []
            then
              && AllDecoded(blocks, inflate).Crops? && |AllDecoded(blocks, inflate).crops| == |blocks|
              && forall i | 0 <= i < |blocks| ::
                   var c, b := AllDecoded(blocks, inflate).crops[i], blocks[i];
                   c.raw == inflate(b.bytes).raw && c.box == Box(b.y, b.y + b.h, b.x, b.x + b.w)
            else AllDecoded(blocks, inflate) == Malformed
  {
    if blocks != [] {
      var init, last := blocks[..|blocks| - 1], blocks[|blocks| - 1];
      FrameReads(init, inflate);
      assert blocks == init + [last];
      assert last in blocks;
    }
  }

  /** The decoder reads at most one byte more than the box has pixels, and refuses a block that has more
      or fewer, does not end, or is followed by anything. */
  method DecodeBlock(b: Block, inflate: seq<nat> -> Stream) returns (raw: Option<seq<nat>>)
    ensures raw == Decoded(b, inflate)
  {
    var stream := inflate(b.bytes);
    if stream.Broken? {
      return None;
    }
    var most := Times(b.h, b.w) + 1;
    var out := if |stream.raw| < most then stream.raw else stream.raw[..most];
    var ended := |stream.raw| <= |out|;
    if |out| != Times(b.h, b.w) || !ended || stream.rest != [] {
      return None;
    }
    assert out == stream.raw;
    raw := Some(out);
  }

  /** Reads one frame to pixels: refused outside the grid, and at the first block that does not decode. */
  method ReadFrame(s: Store, z: int, inflate: seq<nat> -> Stream) returns (reading: Reading)
    requires Opens(s)
    ensures reading == if 0 <= z < s.shape.depth then AllDecoded(Frame(s, z), inflate) else OutOfGrid
  {
    hide Opens, Frame, Decoded;
    var found := IterCrops(s, z);
    if found.None? {
      return OutOfGrid;
    }
    var blocks, crops: seq<Crop> := found.value, [];
    assert blocks[..0] == [];
    for n := 0 to |blocks|
      invariant AllDecoded(blocks[..n], inflate) == Crops(crops)
    {
      assert blocks[..n + 1][..n] == blocks[..n] && blocks[..n + 1][n] == blocks[n];
      var raw := DecodeBlock(blocks[n], inflate);
      if raw.None? {
        StaysMalformed(blocks, n + 1, inflate);
        return Malformed;
      }
      crops := crops + [CropOf(blocks[n], raw.value)];
    }
    assert blocks[..|blocks|] == blocks;
    reading := Crops(crops);
  }

  lemma {:induction false} StaysMalformed(blocks: seq<Block>, n: nat, inflate: seq<nat> -> Stream)
    requires n <= |blocks| && AllDecoded(blocks[..n], inflate) == Malformed
    ensures AllDecoded(blocks, inflate) == Malformed
    decreases |blocks|
  {
    hide Decoded;
    if n < |blocks| {
      var init := blocks[..|blocks| - 1];
      assert init[..n] == blocks[..n];
      StaysMalformed(init, n, inflate);
    } else {
      assert blocks[..n] == blocks;
    }
  }

  // The pixels of a block

  /** Where a pixel of the box lies in its bytes. */
  function At(b: Box, y: int, x: int): nat
    requires Inside(b, y, x)
  {
    Times(y - b.y0, b.x1 - b.x0) + (x - b.x0)
  }

  function PixelOf(c: Crop, y: int, x: int): nat {
    if Inside(c.box, y, x) && At(c.box, y, x) < |c.raw| then c.raw[At(c.box, y, x)] else 0
  }

  /** The crop as the reader hands it over: its box and its scores. */
  function TileFor(c: Crop): Tile {
    Tile(c.box, (y, x) => PixelOf(c, y, x))
  }

  function TilesFor(crops: seq<Crop>): (tiles: seq<Tile>)
    ensures |tiles| == |crops| && forall i | 0 <= i < |tiles| :: tiles[i] == TileFor(crops[i])
  {
    seq(|crops|, i requires 0 <= i < |crops| => TileFor(crops[i]))
  }

  lemma {:induction false} RowPixel(mask: Values, scores: Values, y: int, x0: int, x1: int, x: int)
    requires x0 <= x < x1
    ensures RowBytes(mask, scores, y, x0, x1)[x - x0] == Masked(mask, scores, y, x)
    decreases x1 - x0
  {
    if x < x1 - 1 {
      RowPixel(mask, scores, y, x0, x1 - 1, x);
    }
  }

  /** The bytes of a cell hold its masked scores, each at its place. */
  lemma {:induction false} CellPixel(mask: Values, scores: Values, b: Box, y: int, x: int)
    requires Inside(b, y, x)
    ensures At(b, y, x) < |CellBytes(mask, scores, b)| == Times(b.y1 - b.y0, b.x1 - b.x0)
    ensures CellBytes(mask, scores, b)[At(b, y, x)] == Masked(mask, scores, y, x)
    decreases b.y1 - b.y0
  {
    hide Times, Masked;
    var above := b.(y1 := b.y1 - 1);
    CellSize(mask, scores, b);
    CellSize(mask, scores, above);
    TimesNext(b.y1 - 1 - b.y0, b.x1 - b.x0);
    EmptyTimes(b.x1 - b.x0);
    if y < b.y1 - 1 {
      CellPixel(mask, scores, above, y, x);
    } else {
      RowPixel(mask, scores, y, b.x0, b.x1, x);
    }
  }

  lemma {:induction false} EmptyTimes(w: nat)
    ensures Times(0, w) == 0
  {
  }

  // A captured frame

  /** The scores that a frame keeps: where the mask is set, inside the support. */
  function Kept(mask: Values, scores: Values, support: Box): Values {
    (y, x) => if Known(mask, scores, support)(y, x) then scores(y, x) else 0
  }

  /** A block of a frame as the writer takes it. */
  function BlockFor(e: Encoded): W.Encoded
    requires 0 <= e.box.y0 <= e.box.y1 && 0 <= e.box.x0 <= e.box.x1
  {
    W.Encoded(e.box.y0, e.box.y1, e.box.x0, e.box.x1, e.known, e.bytes)
  }

  /** One frame: what is captured, and the records that the capture scan cuts it into. */
  datatype CapturedFrame = CapturedFrame(mask: Values, scores: Values, support: Box, records: seq<Record>)

  ghost predicate Captured(f: CapturedFrame, g: Grid)
    requires ValidGrid(g)
  {
    IsCut(Known(f.mask, f.scores, f.support), g, BoxesOf(f.records))
  }

  predicate InPlane(f: CapturedFrame, g: Grid) {
    forall r | r in f.records :: BoxFits(r.box, g.h, g.w)
  }

  lemma {:induction false} CapturedInPlane(f: CapturedFrame, g: Grid)
    requires ValidGrid(g) && Captured(f, g)
    ensures InPlane(f, g)
  {
    hide KeysRise, TightIn, KeyOf;
    forall r | r in f.records
      ensures BoxFits(r.box, g.h, g.w)
    {
      var i :| 0 <= i < |f.records| && f.records[i] == r;
      assert BoxesOf(f.records)[i] == r.box;
    }
  }

  function BlocksFor(f: CapturedFrame, g: Grid, zip: seq<nat> -> seq<nat>): (blocks: seq<W.Encoded>)
    requires InPlane(f, g)
    ensures |blocks| == |f.records|
  {
    seq(|f.records|, i requires 0 <= i < |f.records| => BlockFor(EncodedCell(f.mask, f.scores, zip, f.records[i])))
  }

  /** Block `i` of the frame as a reader finds it. */
  function StoredFor(f: CapturedFrame, g: Grid, zip: seq<nat> -> seq<nat>, i: nat): Block
    requires InPlane(f, g) && i < |f.records|
  {
    RecordFits(f, g, i);
    var r := f.records[i];
    Block(r.box.y0, r.box.x0, r.box.y1 - r.box.y0, r.box.x1 - r.box.x0, zip(CellBytes(f.mask, f.scores, r.box)))
  }

  lemma {:induction false} RecordFits(f: CapturedFrame, g: Grid, i: nat)
    requires InPlane(f, g) && i < |f.records|
    ensures BoxFits(f.records[i].box, g.h, g.w)
  {
    assert f.records[i] in f.records;
  }

  /** The first `n` blocks of the frame as a reader finds them. */
  function StoredBlocks(f: CapturedFrame, g: Grid, zip: seq<nat> -> seq<nat>, n: nat): (blocks: seq<Block>)
    requires InPlane(f, g) && n <= |f.records|
    ensures |blocks| == n
  {
    if n == 0 then [] else StoredBlocks(f, g, zip, n - 1) + [StoredFor(f, g, zip, n - 1)]
  }

  /** The raw cells of the first `n` records. */
  function CellCrops(f: CapturedFrame, n: nat): (crops: seq<Crop>)
    requires n <= |f.records|
    ensures |crops| == n
    ensures forall i | 0 <= i < n :: crops[i] == Crop(f.records[i].box, CellBytes(f.mask, f.scores, f.records[i].box))
  {
    if n == 0 then []
    else CellCrops(f, n - 1) + [Crop(f.records[n - 1].box, CellBytes(f.mask, f.scores, f.records[n - 1].box))]
  }

  lemma {:induction false} BlockDecodes(f: CapturedFrame, g: Grid, zip: seq<nat> -> seq<nat>,
                                        inflate: seq<nat> -> Stream, i: nat)
    requires InPlane(f, g) && i < |f.records|
    requires forall raw: seq<nat> :: inflate(zip(raw)) == Stream(raw, [])
    ensures var raw := CellBytes(f.mask, f.scores, f.records[i].box);
            var b := StoredFor(f, g, zip, i);
            Decoded(b, inflate) == Some(raw) && CropOf(b, raw) == Crop(f.records[i].box, raw)
  {
    hide InPlane, CellBytes, Times;
    RecordFits(f, g, i);
    CellSize(f.mask, f.scores, f.records[i].box);
  }

  lemma {:induction false} DecodesNext(blocks: seq<Block>, b: Block, crops: seq<Crop>, raw: seq<nat>,
        inflate: seq<nat> -> Stream)
    requires AllDecoded(blocks, inflate) == Crops(crops) && Decoded(b, inflate) == Some(raw)
    ensures AllDecoded(blocks + [b], inflate) == Crops(crops + [CropOf(b, raw)])
  {
    hide Decoded, CropOf;
    assert (blocks + [b])[..|blocks|] == blocks;
  }

  /** The stored blocks of a frame decode to the raw cells they were compressed from. */
  lemma {:induction false} FrameDecodes(f: CapturedFrame, g: Grid, zip: seq<nat> -> seq<nat>,
                                        inflate: seq<nat> -> Stream, n: nat)
    requires InPlane(f, g) && n <= |f.records|
    requires forall raw: seq<nat> :: inflate(zip(raw)) == Stream(raw, [])
    ensures AllDecoded(StoredBlocks(f, g, zip, n), inflate) == Crops(CellCrops(f, n))
  {
    hide InPlane, StoredFor, CellBytes, Decoded, CropOf;
    if n > 0 {
      FrameDecodes(f, g, zip, inflate, n - 1);
      BlockDecodes(f, g, zip, inflate, n - 1);
      DecodesNext(StoredBlocks(f, g, zip, n - 1), StoredFor(f, g, zip, n - 1), CellCrops(f, n - 1),
        CellBytes(f.mask, f.scores, f.records[n - 1].box), inflate);
    }
  }

  // From plane to plane

  lemma {:induction false} SameOverlay(a: seq<Tile>, b: seq<Tile>, y: int, x: int)
    requires |a| == |b| && forall i | 0 <= i < |a| :: a[i].scores(y, x) == b[i].scores(y, x)
    ensures Overlay(a, y, x) == Overlay(b, y, x)
  {
    if a != [] {
      SameOverlay(a[..|a| - 1], b[..|b| - 1], y, x);
    }
  }

  lemma {:induction false} TightInSupport(mask: Values, scores: Values, support: Box, r: Box, b: Box, y: int, x: int)
    requires TightIn(Known(mask, scores, support), r, b) && Inside(b, y, x)
    ensures Inside(support, y, x)
  {
    hide RowHit, ColumnHit;
    RowInSupport(mask, scores, support, r, b.y0);
    RowInSupport(mask, scores, support, r, b.y1 - 1);
    ColumnInSupport(mask, scores, support, r, b.x0);
    ColumnInSupport(mask, scores, support, r, b.x1 - 1);
  }

  lemma {:induction false} RowInSupport(mask: Values, scores: Values, support: Box, r: Box, y: int)
    requires RowHit(Known(mask, scores, support), r, y)
    ensures support.y0 <= y < support.y1
  {
    var p := Known(mask, scores, support);
    var x :| r.x0 <= x < r.x1 && p(y, x);
    assert Inside(support, y, x);
  }

  lemma {:induction false} ColumnInSupport(mask: Values, scores: Values, support: Box, r: Box, x: int)
    requires ColumnHit(Known(mask, scores, support), r, x)
    ensures support.x0 <= x < support.x1
  {
    var p := Known(mask, scores, support);
    var y :| r.y0 <= y < r.y1 && p(y, x);
    assert Inside(support, y, x);
  }

  /** A crop of a cut lies inside the support. */
  lemma {:induction false} CropInSupport(f: CapturedFrame, g: Grid, b: Box, y: int, x: int)
    requires ValidGrid(g) && Captured(f, g) && b in BoxesOf(f.records) && Inside(b, y, x)
    ensures Inside(f.support, y, x)
  {
    hide KeysRise, KeyOf, Cell, TightIn, BoxesOf, Known;
    TightInSupport(f.mask, f.scores, f.support, Cell(g, KeyOf(g, b.y0, b.x0)), b, y, x);
  }

  /** A raw cell holds the kept scores of its box. */
  lemma {:induction false} CellKeeps(f: CapturedFrame, g: Grid, i: nat, y: int, x: int)
    requires ValidGrid(g) && Captured(f, g) && i < |f.records|
    ensures TileFor(CellCrops(f, |f.records|)[i]).scores(y, x)
         == TileOf(Kept(f.mask, f.scores, f.support), f.records[i].box).scores(y, x)
  {
    hide CellBytes, Captured, At;
    var b, raw := f.records[i].box, CellBytes(f.mask, f.scores, f.records[i].box);
    assert b == BoxesOf(f.records)[i];
    assert TileFor(CellCrops(f, |f.records|)[i]).scores(y, x) == PixelOf(Crop(b, raw), y, x);
    if Inside(b, y, x) {
      CropInSupport(f, g, b, y, x);
      CellPixel(f.mask, f.scores, b, y, x);
      assert raw[At(b, y, x)] == Masked(f.mask, f.scores, y, x);
      assert Known(f.mask, f.scores, f.support)(y, x) <==> f.mask(y, x) != 0 && f.scores(y, x) != 0;
      assert Kept(f.mask, f.scores, f.support)(y, x) == Masked(f.mask, f.scores, y, x);
    }
  }

  /** Overlaying the raw cells of a captured frame gives the frame's kept scores. */
  lemma {:induction false} CellsRebuild(f: CapturedFrame, g: Grid, y: int, x: int)
    requires ValidGrid(g) && Captured(f, g) && 0 <= y < g.h && 0 <= x < g.w
    ensures Overlay(TilesFor(CellCrops(f, |f.records|)), y, x) == Kept(f.mask, f.scores, f.support)(y, x)
  {
    hide CellCrops, Captured, TileFor, TileOf, Kept, Overlay;
    var kept, boxes := Kept(f.mask, f.scores, f.support), BoxesOf(f.records);
    KeptIsCut(f, g);
    OverlayRebuilds(kept, g, boxes, y, x);
    var a, b := TilesFor(CellCrops(f, |f.records|)), TilesOf(kept, boxes);
    forall i | 0 <= i < |a|
      ensures a[i].scores(y, x) == b[i].scores(y, x)
    {
      CellKeeps(f, g, i, y, x);
    }
    SameOverlay(a, b, y, x);
  }

  lemma {:induction false} KeptIsCut(f: CapturedFrame, g: Grid)
    requires ValidGrid(g) && Captured(f, g)
    ensures IsCut(Scored(Kept(f.mask, f.scores, f.support)), g, BoxesOf(f.records))
  {
    hide IsCut;
    CutOfSame(Known(f.mask, f.scores, f.support), Scored(Kept(f.mask, f.scores, f.support)), g, BoxesOf(f.records));
  }

  // The store

  /** The frames as the writer is handed them. */
  function FramesFor(fs: seq<CapturedFrame>, g: Grid, zip: seq<nat> -> seq<nat>): (frames: seq<W.Frames>)
    requires forall f | f in fs :: InPlane(f, g)
    ensures |frames| == |fs|
  {
    if fs == [] then []
    else
      var n := |fs| - 1;
      assert forall f | f in fs[..n] :: f in fs;
      assert fs[n] in fs;
      FramesFor(fs[..n], g, zip) + [W.Frames(n, BlocksFor(fs[n], g, zip))]
  }

  /** The blocks that the writer's loop stores for these frames. */
  function ItemsFor(fs: seq<CapturedFrame>, g: Grid, zip: seq<nat> -> seq<nat>): seq<W.Item>
    requires forall f | f in fs :: InPlane(f, g)
  {
    W.AllItems(FramesFor(fs, g, zip))
  }

  lemma {:induction false} ItemsNext(fs: seq<CapturedFrame>, g: Grid, zip: seq<nat> -> seq<nat>)
    requires fs != [] && forall f | f in fs :: InPlane(f, g)
    ensures forall f | f in fs[..|fs| - 1] :: f in fs
    ensures fs[|fs| - 1] in fs
    ensures ItemsFor(fs, g, zip)
         == ItemsFor(fs[..|fs| - 1], g, zip) + W.ItemsOf(|fs| - 1, BlocksFor(fs[|fs| - 1], g, zip))
  {
    hide InPlane, BlocksFor;
    var n := |fs| - 1;
    assert FramesFor(fs, g, zip)[..n] == FramesFor(fs[..n], g, zip);
  }

  lemma {:induction false} ItemsAreSound(fs: seq<CapturedFrame>, g: Grid, zip: seq<nat> -> seq<nat>, depth: nat)
    requires (forall f | f in fs :: InPlane(f, g)) && |fs| <= depth && forall raw: seq<nat> :: zip(raw) != []
    ensures var items := ItemsFor(fs, g, zip);
      && W.AllBoxed(items) && W.FramesRising(items)
      && (forall i | i in items :: i.z < |fs| && W.Storable(i, Shape(depth, g.h, g.w)))
  {
    if fs != [] {
      var n := |fs| - 1;
      ItemsNext(fs, g, zip);
      ItemsAreSound(fs[..n], g, zip, depth);
      var before, now := ItemsFor(fs[..n], g, zip), W.ItemsOf(n, BlocksFor(fs[n], g, zip));
      FrameItems(fs[n], g, zip, n, depth);
      forall i: W.Item | i in before + now
        ensures W.Boxed(i.block) && i.z < |fs| && W.Storable(i, Shape(depth, g.h, g.w))
      {
        assert i in before || i in now;
      }
      assert forall k | 0 <= k < |before| :: before[k] in before;
    }
  }

  lemma {:induction false} FrameItems(f: CapturedFrame, g: Grid, zip: seq<nat> -> seq<nat>, z: nat, depth: nat)
    requires InPlane(f, g) && z < depth && forall raw: seq<nat> :: zip(raw) != []
    ensures forall i: W.Item | i in W.ItemsOf(z, BlocksFor(f, g, zip)) ::
              i.z == z && W.Boxed(i.block) && W.Storable(i, Shape(depth, g.h, g.w))
  {
    hide CellBytes;
    var blocks := BlocksFor(f, g, zip);
    forall i: W.Item | i in W.ItemsOf(z, blocks)
      ensures i.z == z && W.Boxed(i.block) && W.Storable(i, Shape(depth, g.h, g.w))
    {
      var k :| 0 <= k < |blocks| && W.ItemsOf(z, blocks)[k] == i;
      assert f.records[k] in f.records;
    }
  }

  lemma {:induction false} BlocksJoin(a: seq<W.Item>, b: seq<W.Item>, z: int)
    requires W.AllBoxed(a) && W.AllBoxed(b)
    ensures W.AllBoxed(a + b) && W.BlocksAt(a + b, z) == W.BlocksAt(a, z) + W.BlocksAt(b, z)
    decreases |b|
  {
    if b == [] {
      assert a + b == a;
    } else {
      var init := b[..|b| - 1];
      W.BoxedPrefix(b, init);
      BlocksJoin(a, init, z);
      assert (a + b)[..|a + b| - 1] == a + init;
    }
  }

  lemma {:induction false} ItemFor(f: CapturedFrame, g: Grid, zip: seq<nat> -> seq<nat>, n: nat, k: nat)
    requires InPlane(f, g) && k < |f.records|
    ensures var i := W.ItemsOf(n, BlocksFor(f, g, zip))[k];
            i.z == n && W.Boxed(i.block) && W.StoredBlock(i.block) == StoredFor(f, g, zip, k)
  {
    hide CellBytes;
    RecordFits(f, g, k);
  }

  lemma {:induction false} BlocksOfOne(f: CapturedFrame, g: Grid, zip: seq<nat> -> seq<nat>, n: nat, z: nat, k: nat)
    requires InPlane(f, g) && k <= |f.records|
    ensures var items := W.ItemsOf(n, BlocksFor(f, g, zip))[..k];
            W.AllBoxed(items) && W.BlocksAt(items, z) == if n == z then StoredBlocks(f, g, zip, k) else []
  {
    hide InPlane, BlocksFor, StoredFor, W.StoredBlock, W.Boxed;
    var items := W.ItemsOf(n, BlocksFor(f, g, zip));
    if k > 0 {
      BlocksOfOne(f, g, zip, n, z, k - 1);
      ItemFor(f, g, zip, n, k - 1);
      W.BlocksNext(items[..k - 1], items[k - 1], z);
      assert items[..k] == items[..k - 1] + [items[k - 1]];
    }
  }

  function BlocksAtFrame(fs: seq<CapturedFrame>, g: Grid, zip: seq<nat> -> seq<nat>, z: nat): seq<Block>
    requires forall f | f in fs :: InPlane(f, g)
  {
    if z < |fs| then
      assert fs[z] in fs;
      StoredBlocks(fs[z], g, zip, |fs[z].records|)
    else []
  }

  lemma {:induction false} NothingStored(fs: seq<CapturedFrame>, g: Grid, zip: seq<nat> -> seq<nat>, z: nat)
    requires fs == []
    ensures ItemsFor(fs, g, zip) == [] && W.AllBoxed([]) && W.BlocksAt([], z) == []
  {
  }

  /** The blocks of frame `z` in the store are the frame's own. */
  lemma {:induction false} BlocksOfFrame(fs: seq<CapturedFrame>, g: Grid, zip: seq<nat> -> seq<nat>, z: nat)
    requires forall f | f in fs :: InPlane(f, g)
    ensures W.AllBoxed(ItemsFor(fs, g, zip))
    ensures W.BlocksAt(ItemsFor(fs, g, zip), z) == BlocksAtFrame(fs, g, zip, z)
  {
    hide InPlane, StoredBlocks, BlocksFor, W.AllBoxed, ItemsFor, W.BlocksAt;
    if fs != [] {
      var n := |fs| - 1;
      ItemsNext(fs, g, zip);
      var before, now := ItemsFor(fs[..n], g, zip), W.ItemsOf(n, BlocksFor(fs[n], g, zip));
      BlocksOfFrame(fs[..n], g, zip, z);
      BlocksOfOne(fs[n], g, zip, n, z, |fs[n].records|);
      assert now[..|fs[n].records|] == now;
      BlocksJoin(before, now, z);
    } else {
      NothingStored(fs, g, zip, z);
    }
  }

  /** The round trip of a store, from planes to planes: whatever the compression, as long as it can be
      undone and writes something, a reader opens the store of the captured frames, every frame of it
      decodes, and overlaying its crops gives back the frame's kept scores at every pixel of the plane. */
  lemma {:induction false} PlaneRoundTrip(fs: seq<CapturedFrame>, g: Grid, zip: seq<nat> -> seq<nat>,
        inflate: seq<nat> -> Stream, z: nat)
    requires ValidGrid(g) && (forall f | f in fs :: Captured(f, g)) && z < |fs|
    requires forall raw: seq<nat> :: zip(raw) != [] && inflate(zip(raw)) == Stream(raw, [])
    ensures forall f | f in fs :: InPlane(f, g)
    ensures var items := ItemsFor(fs, g, zip);
            W.AllBoxed(items) && Opens(StoreOf(items, Shape(|fs|, g.h, g.w)))
    ensures var reading: Reading := AllDecoded(Frame(StoreOf(ItemsFor(fs, g, zip), Shape(|fs|, g.h, g.w)), z), inflate);
      && reading.Crops?
      && forall y, x | 0 <= y < g.h && 0 <= x < g.w ::
           Overlay(TilesFor(reading.crops), y, x) == Kept(fs[z].mask, fs[z].scores, fs[z].support)(y, x)
  {
    hide Captured, InPlane, AllDecoded, Overlay, Kept, Opens, Frame, CellCrops, TilesFor, StoredBlocks, ItemsFor,
        W.BlocksAt;
    hide W.AllBoxed, W.FramesRising, W.Storable, W.RowsFor, W.Bytes;
    forall f | f in fs
      ensures InPlane(f, g)
    {
      CapturedInPlane(f, g);
    }
    var items := ItemsFor(fs, g, zip);
    ItemsAreSound(fs, g, zip, |fs|);
    W.StoreRoundTrip(items, Shape(|fs|, g.h, g.w), z);
    BlocksOfFrame(fs, g, zip, z);
    FrameDecodes(fs[z], g, zip, inflate, |fs[z].records|);
    forall y, x | 0 <= y < g.h && 0 <= x < g.w
      ensures Overlay(TilesFor(CellCrops(fs[z], |fs[z].records|)), y, x)
           == Kept(fs[z].mask, fs[z].scores, fs[z].support)(y, x)
    {
      CellsRebuild(fs[z], g, y, x);
    }
  }

  function StoreOf(items: seq<W.Item>, s: Shape): Store
    requires W.AllBoxed(items)
  {
    Store(s, W.RowsFor(items), W.Bytes(items))
  }
}
