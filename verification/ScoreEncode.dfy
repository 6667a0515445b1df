/** Copying captured cells in batches, and masking the scores in place beforehand. */
module ScoreEncode {
  import opened Options
  import opened ScoreBlocks
  import opened ScoreCapture

  const BATCH_CELLS := 16
  const BATCH_BYTES := 256 * 1024

  function RowBytes(mask: Values, scores: Values, y: int, x0: int, x1: int): (bytes: seq<nat>)
    ensures |bytes| == if x0 < x1 then x1 - x0 else 0
    decreases x1 - x0
  {
    if x1 <= x0 then [] else RowBytes(mask, scores, y, x0, x1 - 1) + [Masked(mask, scores, y, x1 - 1)]
  }

  /** The masked scores of a box, row by row: what the simple pipeline compresses. */
  function CellBytes(mask: Values, scores: Values, b: Box): seq<nat>
    decreases b.y1 - b.y0
  {
    if b.y1 <= b.y0 then []
    else CellBytes(mask, scores, b.(y1 := b.y1 - 1)) + RowBytes(mask, scores, b.y1 - 1, b.x0, b.x1)
  }

  function Area(b: Box): nat {
    if b.y0 < b.y1 && b.x0 < b.x1 then Times(b.y1 - b.y0, b.x1 - b.x0) else 0
  }

  function Times(a: nat, b: nat): nat {
    a * b
  }

  lemma {:induction false} TimesNext(a: nat, b: nat)
    ensures Times(a + 1, b) == Times(a, b) + b
  {
  }

  lemma {:induction false} TimesGrows(a: nat, b: nat, c: nat, d: nat)
    requires a <= c && b <= d
    ensures Times(a, b) <= Times(c, d)
  {
    assert c * d == a * b + (c - a) * d + a * (d - b);
  }

  lemma {:induction false} CellSize(mask: Values, scores: Values, b: Box)
    requires b.x0 <= b.x1
    ensures |CellBytes(mask, scores, b)| == Area(b)
    decreases b.y1 - b.y0
  {
    if b.y0 < b.y1 {
      CellSize(mask, scores, b.(y1 := b.y1 - 1));
      TimesNext(b.y1 - 1 - b.y0, b.x1 - b.x0);
    }
  }

  predicate BoxFits(b: Box, h: nat, w: nat) {
    0 <= b.y0 < b.y1 <= h && 0 <= b.x0 < b.x1 <= w
  }

  /** Where each cell of a batch begins, and after the last where the batch ends. */
  function Offset(cells: seq<Record>, i: nat): nat
    requires i <= |cells|
  {
    if i == 0 then 0 else Offset(cells, i - 1) + Area(cells[i - 1].box)
  }

  lemma {:induction false} OffsetsRise(cells: seq<Record>, i: nat, j: nat)
    requires i <= j <= |cells|
    ensures Offset(cells, i) <= Offset(cells, j)
  {
    if i < j {
      OffsetsRise(cells, i, j - 1);
    }
  }

  predicate BatchAdmitted(cells: seq<Record>, h: nat, w: nat, maxBytes: nat) {
    && |cells| <= BATCH_CELLS && maxBytes <= BATCH_BYTES
    && (forall c | c in cells :: BoxFits(c.box, h, w))
    && Offset(cells, |cells|) <= maxBytes
  }

  /** The output so far holds the cells before `i`, each at its offset. */
  ghost predicate Copied(mask: Values, scores: Values, cells: seq<Record>, output: seq<nat>, i: nat)
    requires i <= |cells|
  {
    && |output| == Offset(cells, i)
    && forall k | 0 <= k < i :: CellAt(mask, scores, cells, output, k)
  }

  ghost predicate CellAt(mask: Values, scores: Values, cells: seq<Record>, output: seq<nat>, k: nat)
    requires k < |cells|
  {
    && Offset(cells, k + 1) <= |output|
    && output[Offset(cells, k)..Offset(cells, k + 1)] == CellBytes(mask, scores, cells[k].box)
  }

  lemma {:induction false} CopiedMore(mask: Values, scores: Values, cells: seq<Record>, output: seq<nat>, i: nat)
    requires i < |cells| && Copied(mask, scores, cells, output, i) && cells[i].box.x0 <= cells[i].box.x1
    ensures Copied(mask, scores, cells, output + CellBytes(mask, scores, cells[i].box), i + 1)
  {
    hide CellBytes, Area;
    var bytes := CellBytes(mask, scores, cells[i].box);
    var next := output + bytes;
    CellSize(mask, scores, cells[i].box);
    forall k | 0 <= k < i + 1
      ensures CellAt(mask, scores, cells, next, k)
    {
      if k < i {
        assert CellAt(mask, scores, cells, output, k);
        assert next[Offset(cells, k)..Offset(cells, k + 1)] == output[Offset(cells, k)..Offset(cells, k + 1)];
      }
    }
  }

  /** Copies one cell, a pixel at a time. */
  method CopyCell(mask: Values, scores: Values, b: Box) returns (bytes: seq<nat>)
    requires b.y0 <= b.y1 && b.x0 <= b.x1
    ensures bytes == CellBytes(mask, scores, b)
  {
    bytes := [];
    for row := b.y0 to b.y1
      invariant bytes == CellBytes(mask, scores, b.(y1 := row))
    {
      ghost var rows := bytes;
      assert rows == rows + RowBytes(mask, scores, row, b.x0, b.x0);
      for column := b.x0 to b.x1
        invariant bytes == rows + RowBytes(mask, scores, row, b.x0, column)
      {
        bytes := bytes + [if mask(row, column) != 0 then scores(row, column) else 0];
      }
      assert b.(y1 := row + 1).(y1 := row) == b.(y1 := row);
    }
    assert b.(y1 := b.y1) == b;
  }

  /** Copies a batch of cells end to end; refused when it exceeds its bounds. */
  method CopyBatch(mask: Values, scores: Values, cells: seq<Record>, h: nat, w: nat, maxBytes: nat)
    returns (output: Option<seq<nat>>)
    ensures output.Some? <==> BatchAdmitted(cells, h, w, maxBytes)
    ensures output.Some? <==>
      && |cells| <= 16 && Offset(cells, |cells|) <= maxBytes <= 256 * 1024
      && forall c | c in cells :: 0 <= c.box.y0 < c.box.y1 <= h && 0 <= c.box.x0 < c.box.x1 <= w
    ensures output.Some? ==> Copied(mask, scores, cells, output.value, |cells|)
  {
    if |cells| > BATCH_CELLS || maxBytes > BATCH_BYTES {
      return None;
    }
    var end := 0;
    for item := 0 to |cells|
      invariant end == Offset(cells, item)
      invariant forall k | 0 <= k < item :: BoxFits(cells[k].box, h, w)
    {
      var b := cells[item].box;
      assert cells[item] in cells;
      if !(0 <= b.y0 < b.y1 <= h && 0 <= b.x0 < b.x1 <= w) {
        return None;
      }
      end := end + Times(b.y1 - b.y0, b.x1 - b.x0);
    }
    if end > maxBytes {
      return None;
    }
    var bytes: seq<nat> := [];
    for item := 0 to |cells|
      invariant Copied(mask, scores, cells, bytes, item)
    {
      var cell := CopyCell(mask, scores, cells[item].box);
      CopiedMore(mask, scores, cells, bytes, item);
      bytes := bytes + cell;
    }
    output := Some(bytes);
  }

  // A frame, batch by batch

  datatype Encoded = Encoded(box: Box, known: nat, bytes: seq<nat>)

  /** One cell as the simple pipeline encodes it. */
  function EncodedCell(mask: Values, scores: Values, zip: seq<nat> -> seq<nat>, r: Record): Encoded {
    Encoded(r.box, r.known, zip(CellBytes(mask, scores, r.box)))
  }

  function EncodedCells(mask: Values, scores: Values, zip: seq<nat> -> seq<nat>, rs: seq<Record>): seq<Encoded> {
    if rs == [] then []
    else EncodedCells(mask, scores, zip, rs[..|rs| - 1]) + [EncodedCell(mask, scores, zip, rs[|rs| - 1])]
  }

  /** Cells no larger than the grid's fit a batch of the size the frame chooses. */
  lemma {:induction false} BatchFits(cells: seq<Record>, h: nat, w: nat, height: nat, width: nat, count: nat)
    requires |cells| <= count <= BATCH_CELLS && Times(count, Times(height, width)) <= BATCH_BYTES
    requires forall c | c in cells ::
               BoxFits(c.box, h, w) && c.box.y1 - c.box.y0 <= height && c.box.x1 - c.box.x0 <= width
    ensures BatchAdmitted(cells, h, w, BATCH_BYTES)
  {
    OffsetBound(cells, h, w, height, width, |cells|);
    TimesGrows(|cells|, Times(height, width), count, Times(height, width));
  }

  lemma {:induction false} OffsetBound(cells: seq<Record>, h: nat, w: nat, height: nat, width: nat, i: nat)
    requires i <= |cells|
    requires forall c | c in cells ::
               BoxFits(c.box, h, w) && c.box.y1 - c.box.y0 <= height && c.box.x1 - c.box.x0 <= width
    ensures Offset(cells, i) <= Times(i, Times(height, width))
  {
    if i > 0 {
      OffsetBound(cells, h, w, height, width, i - 1);
      var b := cells[i - 1].box;
      assert cells[i - 1] in cells;
      TimesGrows(b.y1 - b.y0, b.x1 - b.x0, height, width);
      TimesNext(i - 1, Times(height, width));
    }
  }

  function BatchSize(cellBytes: nat): (n: nat)
    requires cellBytes > 0
    ensures n <= BATCH_CELLS && Times(n, cellBytes) <= BATCH_BYTES
  {
    var fit := BATCH_BYTES / cellBytes;
    QuotientFits(BATCH_BYTES, cellBytes);
    var n := if fit < BATCH_CELLS then fit else BATCH_CELLS;
    TimesGrows(n, cellBytes, fit, cellBytes);
    n
  }

  lemma {:induction false} QuotientFits(total: nat, part: nat)
    requires part > 0
    ensures Times(total / part, part) <= total
  {
    assert total == total / part * part + total % part;
  }

  lemma {:induction false} EncodedJoin(mask: Values, scores: Values, zip: seq<nat> -> seq<nat>, a: seq<Record>,
        b: seq<Record>)
    ensures EncodedCells(mask, scores, zip, a + b)
            == EncodedCells(mask, scores, zip, a) + EncodedCells(mask, scores, zip, b)
  {
    if b == [] {
      assert a + b == a;
    } else {
      assert (a + b)[..|a + b| - 1] == a + b[..|b| - 1];
      EncodedJoin(mask, scores, zip, a, b[..|b| - 1]);
    }
  }

  lemma {:induction false} EncodedOne(mask: Values, scores: Values, zip: seq<nat> -> seq<nat>, r: Record)
    ensures EncodedCells(mask, scores, zip, [r]) == [EncodedCell(mask, scores, zip, r)]
  {
    assert [r][..0] == [];
  }

  /** One admitted batch: copied together, compressed cell by cell. */
  method EncodeBatch(mask: Values, scores: Values, zip: seq<nat> -> seq<nat>, cells: seq<Record>, h: nat, w: nat)
    returns (records: seq<Encoded>)
    requires BatchAdmitted(cells, h, w, BATCH_BYTES)
    ensures records == EncodedCells(mask, scores, zip, cells)
  {
    hide Copied, CellBytes, BatchAdmitted, Offset;
    var raw := CopyBatch(mask, scores, cells, h, w, BATCH_BYTES);
    records := [];
    assert cells[..0] == [];
    for item := 0 to |cells|
      invariant records == EncodedCells(mask, scores, zip, cells[..item])
    {
      CellOfBatch(mask, scores, cells, raw.value, item);
      var c := cells[item];
      assert cells[..item + 1] == cells[..item] + [c];
      EncodedJoin(mask, scores, zip, cells[..item], [c]);
      EncodedOne(mask, scores, zip, c);
      records := records + [Encoded(c.box, c.known, zip(raw.value[Offset(cells, item)..Offset(cells, item + 1)]))];
    }
    assert cells[..|cells|] == cells;
  }

  /** Encodes the cells of a frame in batches: whatever the batches, each cell's record is its own
      masked scores, compressed on their own, in order. */
  method EncodeCells(mask: Values, scores: Values, zip: seq<nat> -> seq<nat>, bounds: seq<Record>, h: nat, w: nat,
                     height: nat, width: nat) returns (records: seq<Encoded>)
    requires height > 0 && width > 0
    requires forall c | c in bounds ::
               BoxFits(c.box, h, w) && c.box.y1 - c.box.y0 <= height && c.box.x1 - c.box.x0 <= width
    ensures records == EncodedCells(mask, scores, zip, bounds)
  {
    hide CellBytes, BatchSize, EncodedCells, BatchAdmitted;
    CellArea(height, width);
    var batch := BatchSize(Times(height, width));
    var step := if batch < 1 then 1 else batch;
    records := [];
    var first := 0;
    NothingEncoded(mask, scores, zip);
    assert bounds[..0] == [];
    while first < |bounds|
      invariant 0 <= first <= |bounds|
      invariant records == EncodedCells(mask, scores, zip, bounds[..first])
      decreases |bounds| - first
    {
      var stop := if first + step < |bounds| then first + step else |bounds|;
      var cells := bounds[first..stop];
      assert bounds[..stop] == bounds[..first] + cells;
      EncodedJoin(mask, scores, zip, bounds[..first], cells);
      if batch > 0 {
        BatchFits(cells, h, w, height, width, batch);
        var more := EncodeBatch(mask, scores, zip, cells, h, w);
        records := records + more;
      } else {
        var c := bounds[first];
        assert cells == [c];
        EncodedOne(mask, scores, zip, c);
        var raw := CopyCell(mask, scores, c.box);
        records := records + [Encoded(c.box, c.known, zip(raw))];
      }
      first := stop;
    }
    assert bounds[..first] == bounds;
  }

  lemma {:induction false} NothingEncoded(mask: Values, scores: Values, zip: seq<nat> -> seq<nat>)
    ensures EncodedCells(mask, scores, zip, []) == []
  {
  }

  lemma {:induction false} CellArea(height: nat, width: nat)
    requires height > 0 && width > 0
    ensures Times(height, width) > 0
  {
    TimesGrows(1, 1, height, width);
  }

  lemma {:induction false} CellOfBatch(mask: Values, scores: Values, cells: seq<Record>, raw: seq<nat>, i: nat)
    requires Copied(mask, scores, cells, raw, |cells|) && i < |cells|
    ensures Offset(cells, i) <= Offset(cells, i + 1) <= |raw|
    ensures raw[Offset(cells, i)..Offset(cells, i + 1)] == CellBytes(mask, scores, cells[i].box)
  {
    assert CellAt(mask, scores, cells, raw, i);
  }

  // Masking in place

  /** Zeroes the scores of a region where the mask is zero. */
  method ZeroUnmasked(mask: array2<nat>, scores: array2<nat>, r: Box)
    requires mask != scores && mask.Length0 == scores.Length0 && mask.Length1 == scores.Length1
    requires 0 <= r.y0 <= r.y1 <= mask.Length0 && 0 <= r.x0 <= r.x1 <= mask.Length1
    modifies scores
    ensures forall y, x | 0 <= y < mask.Length0 && 0 <= x < mask.Length1 ::
      scores[y, x] == if Inside(r, y, x) && mask[y, x] == 0 then 0 else old(scores[y, x])
  {
    forall y, x | r.y0 <= y < r.y1 && r.x0 <= x < r.x1 && mask[y, x] == 0 {
      scores[y, x] := 0;
    }
  }

  /** Masks a support box strip by strip: bands of whole rows while a row fits the scratch, pieces of
      a row otherwise. The strips do not show in the result. */
  method MaskSupport(mask: array2<nat>, scores: array2<nat>, support: Box, scratch: nat)
    requires mask != scores && mask.Length0 == scores.Length0 && mask.Length1 == scores.Length1
    requires 0 <= support.y0 < support.y1 <= mask.Length0 && 0 <= support.x0 < support.x1 <= mask.Length1
    requires scratch > 0
    modifies scores
    ensures forall y, x | 0 <= y < mask.Length0 && 0 <= x < mask.Length1 ::
      scores[y, x] == if Inside(support, y, x) && mask[y, x] == 0 then 0 else old(scores[y, x])
  {
    var width := support.x1 - support.x0;
    if width <= scratch {
      var rows := if scratch / width < 1 then 1 else scratch / width;
      var y := support.y0;
      while y < support.y1
        invariant support.y0 <= y <= support.y1
        invariant forall i, j | 0 <= i < mask.Length0 && 0 <= j < mask.Length1 ::
          scores[i, j] == if Inside(support, i, j) && i < y && mask[i, j] == 0 then 0 else old(scores[i, j])
      {
        var stop := Min(y + rows, support.y1);
        ZeroUnmasked(mask, scores, Box(y, stop, support.x0, support.x1));
        y := stop;
      }
    } else {
      for y := support.y0 to support.y1
        invariant forall i, j | 0 <= i < mask.Length0 && 0 <= j < mask.Length1 ::
          scores[i, j] == if Inside(support, i, j) && i < y && mask[i, j] == 0 then 0 else old(scores[i, j])
      {
        var x := support.x0;
        while x < support.x1
          invariant support.x0 <= x <= support.x1
          invariant forall i, j | 0 <= i < mask.Length0 && 0 <= j < mask.Length1 ::
            scores[i, j] == if Inside(support, i, j) && (i < y || (i == y && j < x)) && mask[i, j] == 0 then 0
                            else old(scores[i, j])
        {
          var stop := Min(x + scratch, support.x1);
          ZeroUnmasked(mask, scores, Box(y, y + 1, x, stop));
          x := stop;
        }
      }
    }
  }

  /** Once the scores are masked, they can stand in for the mask: the known pixels and the bytes of
      every box inside the support stay the same. */
  lemma {:induction false} ScoresReplaceMask(mask: Values, scores: Values, masked: Values, support: Box, b: Box)
    requires forall y, x | Inside(support, y, x) :: masked(y, x) == Masked(mask, scores, y, x)
    requires support.y0 <= b.y0 <= b.y1 <= support.y1 && support.x0 <= b.x0 <= b.x1 <= support.x1
    ensures forall y, x :: Known(masked, masked, support)(y, x) <==> Known(mask, scores, support)(y, x)
    ensures CellBytes(masked, masked, b) == CellBytes(mask, scores, b)
    decreases b.y1 - b.y0
  {
    if b.y0 < b.y1 {
      ScoresReplaceMask(mask, scores, masked, support, b.(y1 := b.y1 - 1));
      RowReplaced(mask, scores, masked, support, b.y1 - 1, b.x0, b.x1);
    }
  }

  lemma {:induction false} RowReplaced(mask: Values, scores: Values, masked: Values, support: Box, y: int, x0: int,
        x1: int)
    requires forall y, x | Inside(support, y, x) :: masked(y, x) == Masked(mask, scores, y, x)
    requires support.y0 <= y < support.y1 && support.x0 <= x0 <= x1 <= support.x1
    ensures RowBytes(masked, masked, y, x0, x1) == RowBytes(mask, scores, y, x0, x1)
    decreases x1 - x0
  {
    if x0 < x1 {
      RowReplaced(mask, scores, masked, support, y, x0, x1 - 1);
      assert Inside(support, y, x1 - 1);
    }
  }
}
