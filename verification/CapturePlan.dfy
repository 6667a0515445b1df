/** The admission arithmetic of a confidence capture. */
module CapturePlan {
  import OrderedPlanes

  const CONTROL_BYTES := 256 * 1024
  const CODEC_BYTES := 1024 * 1024
  const CELL_RECORD_BYTES := 768
  const COPY_BATCH_MAX_CELLS := 16
  const COPY_BATCH_MAX_BYTES := 256 * 1024

  datatype Plan = Plan(workers: nat, workspace: nat, limit: nat, fixed: nat, worker: nat, consumer: nat,
                       initialization: nat, batchCells: nat, batchBytes: nat, cellBytes: nat, cellBound: nat)

  datatype Outcome = Invalid | TooSmall | Admitted(plan: Plan)

  function Ceil(a: nat, b: nat): nat
    requires b > 0
  {
    (a + b - 1) / b
  }

  function Min(a: nat, b: nat): nat {
    if a <= b then a else b
  }

  function Max(a: nat, b: nat): nat {
    if a >= b then a else b
  }

  function Times(a: nat, b: nat): nat {
    a * b
  }

  predicate Dimension(n: nat) {
    0 < n < 0x8000_0000
  }

  /** The most bytes a compressed cell can take beyond its raw size. */
  function ZlibExtra(cell: nat): nat {
    cell / 4096 + cell / 16384 + cell / 33554432 + 13
  }

  function FrameBytes(height: nat, width: nat, block: nat, extra: nat): nat
    requires block > 0
  {
    Times(height, width) + Times(Times(Ceil(height, block), Ceil(width, block)), Max(64, extra) + CELL_RECORD_BYTES)
  }

  function BatchCells(cell: nat): nat
    requires cell > 0
  {
    Min(COPY_BATCH_MAX_CELLS, COPY_BATCH_MAX_BYTES / cell)
  }

  function BatchBytes(cells: nat, cell: nat, extra: nat): nat {
    if cells == 0 then 0 else Times(cells, cell + Max(64, extra)) + (cells + 1) * 8 + 8
  }

  /** Charges `fixed`, one consumer frame, and as many workers as the budget pays for. */
  function Charge(depth: nat, requested: nat, budget: nat, frame: nat, batchCells: nat, batchBytes: nat, cell: nat,
                  extra: nat): Outcome {
    var worker := frame + CODEC_BYTES + 2 * cell + batchBytes;
    var fixed := CONTROL_BYTES + 33 * depth;
    var initialization := CONTROL_BYTES + 160 * depth;
    if initialization > budget then TooSmall
    else
      var available := budget - fixed - frame;
      var fit := if available < 0 then 0 else available / worker;
      var admitted := Min(Min(requested, depth), fit);
      if admitted < 1 then TooSmall
      else
        Admitted(Plan(admitted, Max(initialization, fixed + frame + Times(admitted, worker)), budget, fixed, worker,
                      frame, initialization, batchCells, batchBytes, cell, extra))
  }

  function PlanCapture(depth: nat, height: nat, width: nat, requested: int, block: int, budget: int): Outcome {
    if !Dimension(depth) || !Dimension(height) || !Dimension(width) then Invalid
    else if requested < 1 || !(1 <= block <= 65535) || budget <= 0 then Invalid
    else
      var cell := Times(Min(block, height), Min(block, width));
      var extra := ZlibExtra(cell);
      CellIsPositive(height, width, block);
      if cell + extra >= 0x1_0000_0000 then Invalid
      else
        Charge(depth, requested, budget, FrameBytes(height, width, block, extra), BatchCells(cell),
               BatchBytes(BatchCells(cell), cell, extra), cell, extra)
  }

  lemma {:induction false} CellIsPositive(height: nat, width: nat, block: nat)
    requires height > 0 && width > 0 && block > 0
    ensures Times(Min(block, height), Min(block, width)) > 0
  {
    var a, b := Min(block, height), Min(block, width);
    assert a * b >= a by {
      assert a * b == a + a * (b - 1);
    }
  }

  lemma {:induction false} Quotient(total: nat, part: nat, n: nat)
    requires part > 0 && n <= total / part
    ensures Times(n, part) <= total
  {
    assert total == total / part * part + total % part;
    assert total / part * part == n * part + (total / part - n) * part;
  }

  /** An admitted capture is charged for its fixed state, one frame per worker and the consumer's own
      frame, and the charge stays inside the budget; a batch's raw bytes stay inside the batch limit. */
  lemma {:induction false} AdmittedFits(depth: nat, height: nat, width: nat, requested: int, block: int, budget: int)
    requires PlanCapture(depth, height, width, requested, block, budget).Admitted?
    ensures var p := PlanCapture(depth, height, width, requested, block, budget).plan;
      && 1 <= p.workers <= requested && p.workers <= depth
      && p.fixed + p.consumer + Times(p.workers, p.worker) <= p.workspace <= p.limit == budget
      && p.initialization <= p.workspace
      && Times(p.batchCells, p.cellBytes) <= COPY_BATCH_MAX_BYTES && p.batchCells <= COPY_BATCH_MAX_CELLS
  {
    var p := PlanCapture(depth, height, width, requested, block, budget).plan;
    hide Times, FrameBytes, BatchBytes, ZlibExtra, Ceil;
    var available := budget - p.fixed - p.consumer;
    CellIsPositive(height, width, block);
    Quotient(available, p.worker, p.workers);
    Quotient(COPY_BATCH_MAX_BYTES, p.cellBytes, p.batchCells);
  }

  /** Whatever happens to a capture's ordered stream, the frames that its window and its consumer retain
      are paid for: with the fixed state and the frame just published they stay inside the workspace. */
  lemma {:induction false} RetainedFits(depth: nat, height: nat, width: nat, requested: int, block: int, budget: int,
                                        count: nat, es: seq<OrderedPlanes.Event>)
    requires PlanCapture(depth, height, width, requested, block, budget).Admitted?
    ensures var p := PlanCapture(depth, height, width, requested, block, budget).plan;
            var retained := |OrderedPlanes.Retained(OrderedPlanes.Run(false, count, p.workers, es))|;
      && p.fixed + p.consumer + Times(retained, p.worker) <= p.workspace <= budget
      && p.fixed + p.consumer + Times(retained, p.consumer) <= p.workspace
  {
    hide *;
    AdmittedFits(depth, height, width, requested, block, budget);
    var p := PlanCapture(depth, height, width, requested, block, budget).plan;
    OrderedPlanes.PublishedInOrder(false, count, p.workers, es);
    var retained := |OrderedPlanes.Retained(OrderedPlanes.Run(false, count, p.workers, es))|;
    WidthIsWorkers(p.workers);
    WorkerHoldsFrame(depth, height, width, requested, block, budget);
    TimesGrows(retained, p.workers, p.worker, p.worker);
    TimesGrows(retained, p.workers, p.consumer, p.worker);
  }

  lemma {:induction false} WidthIsWorkers(workers: nat)
    requires workers >= 1
    ensures OrderedPlanes.Width(workers) == workers
  {
  }

  /** A worker's charge holds a whole encoded frame. */
  lemma {:induction false} WorkerHoldsFrame(depth: nat, height: nat, width: nat, requested: int, block: int,
        budget: int)
    requires PlanCapture(depth, height, width, requested, block, budget).Admitted?
    ensures var p := PlanCapture(depth, height, width, requested, block, budget).plan; p.consumer <= p.worker
  {
    hide Times, FrameBytes, BatchBytes, BatchCells, ZlibExtra, Ceil;
  }

  lemma {:induction false} TimesGrows(a: nat, b: nat, c: nat, d: nat)
    requires a <= b && c <= d
    ensures Times(a, c) <= Times(b, d)
  {
    assert b * d == a * c + (b - a) * d + a * (d - c);
  }
}
