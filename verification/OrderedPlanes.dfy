/** The ordered projection stream: a CPU window that may hand over to one GPU producer. */
module OrderedPlanes {
  // Planes are computed by a bounded window of CPU operations and handed over at any plane to a single
  // GPU producer that works one plane ahead. Closing the CPU window cancels the planes one by one, which
  // a running operation refuses, and then waits for its threads. Operations may start, finish and fail
  // between any two of these steps, and the consumer may fail or go away at any plane it holds.

  import opened Options

  datatype Status = Queued | Running | Done | Failed | Cancelled

  /** `Closing` has cancelled the first `cancelled` planes of the window, to hand over or to end. */
  datatype Phase = Cpu | Closing(cancelled: nat, handOver: bool) | Gpu | GpuClosing | Over

  /** `window` are the CPU planes submitted and not yet taken, in order; `taken` is the plane the
      consumer waits for or holds, `shown` once it has been yielded; `cpu` and `gpu` are the operations
      submitted so far. `ahead` is the plane submitted to the GPU producer behind the one that is taken.
      `broken` once a failure or the consumer has cut the stream short. */
  datatype Stream = Stream(phase: Phase, next: nat, window: seq<nat>, taken: Option<nat>, shown: bool,
                           cpu: map<nat, Status>, gpu: map<nat, Status>, ahead: Option<nat>,
                           published: seq<nat>, broken: bool)

  datatype Event =
    | Submit                            // fill the window
    | Start(z: nat)                     // a thread takes up the operation of a plane
    | Finish(z: nat, fails: bool)
    | Take                              // the consumer asks for the next plane
    | Yield
    | Raise                             // the plane asked for has failed
    | Resume                            // the consumer comes back: one more plane is submitted
    | Abandon                           // the consumer fails or stops while it holds a plane
    | End
    | HandOver                          // a GPU stage was acquired while the consumer holds a plane
    | Cancel                            // closing: the next plane of the window
    | Joined
    | GpuBegin
    | GpuStart(z: nat)
    | GpuFinish(z: nat, fails: bool)
    | GpuTake
    | GpuYield
    | GpuRaise
    | GpuResume
    | GpuAbandon
    | GpuEnd
    | GpuCancel
    | GpuJoined

  predicate Live(st: Status) {
    st.Queued? || st.Running?
  }

  predicate AllOver(ops: map<nat, Status>) {
    forall z | z in ops :: !Live(ops[z])
  }

  /** No thread is at work: what joining them waits for. */
  predicate Idle(ops: map<nat, Status>) {
    forall z | z in ops :: !ops[z].Running?
  }

  function Width(workers: nat): nat {
    if workers <= 1 then 1 else workers
  }

  function Begin(gpu: bool): Stream {
    Stream(if gpu then Gpu else Cpu, 0, [], None, false, map[], map[], None, [], false)
  }

  // One event

  function Submitted(s: Stream): Stream {
    s.(window := s.window + [s.next], cpu := s.cpu[s.next := Queued], next := s.next + 1)
  }

  function Started(ops: map<nat, Status>, z: nat): map<nat, Status> {
    if z in ops && ops[z].Queued? then ops[z := Running] else ops
  }

  function Finished(ops: map<nat, Status>, z: nat, fails: bool): map<nat, Status> {
    if z in ops && ops[z].Running? then ops[z := if fails then Failed else Done] else ops
  }

  function Cut(s: Stream, phase: Phase, count: nat): Stream {
    s.(phase := phase, taken := None, shown := false, broken := s.broken || |s.published| < count)
  }

  function NextCpu(s: Stream, count: nat, workers: nat, e: Event): Stream {
    match e
    case Submit =>
      if workers > 1 && s.phase.Cpu? && s.taken.None? && s.published == [] && |s.window| < workers && s.next < count
      then Submitted(s)
      else s
    case Start(z) => s.(cpu := Started(s.cpu, z))
    case Finish(z, fails) => s.(cpu := Finished(s.cpu, z, fails))
    case Take =>
      if !s.phase.Cpu? || s.taken.Some? then s
      else if workers <= 1 then
        if s.next < count
        then s.(taken := Some(s.next), shown := false, cpu := s.cpu[s.next := Running], next := s.next + 1)
        else s
      else if s.window != [] then s.(taken := Some(s.window[0]), shown := false, window := s.window[1..])
      else s
    case Yield =>
      if s.phase.Cpu? && s.taken.Some? && !s.shown && s.taken.value in s.cpu && s.cpu[s.taken.value].Done?
      then s.(shown := true, published := s.published + [s.taken.value])
      else s
    case Raise =>
      if s.phase.Cpu? && s.taken.Some? && !s.shown && s.taken.value in s.cpu && s.cpu[s.taken.value].Failed?
      then Cut(s, Closing(0, false), count)
      else s
    case Resume =>
      if s.phase.Cpu? && s.taken.Some? && s.shown then
        if workers > 1 && s.next < count then Submitted(s.(taken := None, shown := false))
        else s.(taken := None, shown := false)
      else s
    case Abandon =>
      if s.phase.Cpu? && s.taken.Some? && s.shown then Cut(s, Closing(0, false), count) else s
    case End =>
      if s.phase.Cpu? && s.taken.None? && s.window == [] && s.next == count then s.(phase := Closing(0, false)) else s
    case HandOver =>
      if s.phase.Cpu? && s.taken.Some? && s.shown && |s.published| < count
      then s.(phase := Closing(0, true), taken := None, shown := false)
      else s
    case Cancel =>
      if s.phase.Closing? && s.phase.cancelled < |s.window| then
        var z := s.window[s.phase.cancelled];
        s.(phase := s.phase.(cancelled := s.phase.cancelled + 1),
           cpu := if z in s.cpu && s.cpu[z].Queued? then s.cpu[z := Cancelled] else s.cpu)
      else s
    case Joined =>
      if s.phase.Closing? && s.phase.cancelled == |s.window| && Idle(s.cpu)
      then s.(phase := if s.phase.handOver then Gpu else Over, window := [])
      else s
    case _ => s
  }

  function NextGpu(s: Stream, count: nat, e: Event): Stream {
    match e
    case GpuBegin =>
      if s.phase.Gpu? && s.gpu == map[] && |s.published| < count
      then s.(ahead := Some(|s.published|), gpu := s.gpu[|s.published| := Queued])
      else s
    case GpuStart(z) => s.(gpu := Started(s.gpu, z))
    case GpuFinish(z, fails) => s.(gpu := Finished(s.gpu, z, fails))
    case GpuTake =>
      if s.phase.Gpu? && s.taken.None? && s.ahead.Some? then s.(taken := s.ahead, shown := false, ahead := None) else s
    case GpuYield =>
      if s.phase.Gpu? && s.taken.Some? && !s.shown && s.taken.value in s.gpu && s.gpu[s.taken.value].Done? then
        var z := s.taken.value;
        if z + 1 < count
        then s.(shown := true, published := s.published + [z], ahead := Some(z + 1), gpu := s.gpu[z + 1 := Queued])
        else s.(shown := true, published := s.published + [z])
      else s
    case GpuRaise =>
      if s.phase.Gpu? && s.taken.Some? && !s.shown && s.taken.value in s.gpu && s.gpu[s.taken.value].Failed?
      then Cut(s, GpuClosing, count)
      else s
    case GpuResume =>
      if s.phase.Gpu? && s.taken.Some? && s.shown then s.(taken := None, shown := false) else s
    case GpuAbandon =>
      if s.phase.Gpu? && s.taken.Some? && s.shown then Cut(s, GpuClosing, count) else s
    case GpuEnd =>
      if s.phase.Gpu? && s.taken.None? && s.ahead.None? && |s.published| == count then s.(phase := GpuClosing) else s
    case GpuCancel =>
      if s.phase.GpuClosing? && s.ahead.Some? && s.ahead.value in s.gpu then
        var z := s.ahead.value;
        if s.gpu[z].Queued? then s.(ahead := None, gpu := s.gpu[z := Cancelled])
        else if s.gpu[z].Running? then s
        else s.(ahead := None)
      else s
    case GpuJoined =>
      if s.phase.GpuClosing? && s.ahead.None? && Idle(s.gpu) then s.(phase := Over) else s
    case _ => s
  }

  function Next(s: Stream, count: nat, workers: nat, e: Event): Stream {
    match e
    case GpuBegin => NextGpu(s, count, e)
    case GpuStart(_) => NextGpu(s, count, e)
    case GpuFinish(_, _) => NextGpu(s, count, e)
    case GpuTake => NextGpu(s, count, e)
    case GpuYield => NextGpu(s, count, e)
    case GpuRaise => NextGpu(s, count, e)
    case GpuResume => NextGpu(s, count, e)
    case GpuAbandon => NextGpu(s, count, e)
    case GpuEnd => NextGpu(s, count, e)
    case GpuCancel => NextGpu(s, count, e)
    case GpuJoined => NextGpu(s, count, e)
    case _ => NextCpu(s, count, workers, e)
  }

  function Run(gpu: bool, count: nat, workers: nat, es: seq<Event>): Stream {
    if es == [] then Begin(gpu) else Next(Run(gpu, count, workers, es[..|es| - 1]), count, workers, es[|es| - 1])
  }

  /** Planes `from` up to `to`, in order. */
  function Planes(from: nat, to: nat): (ps: seq<nat>)
    ensures |ps| == (if from < to then to - from else 0) && forall i | 0 <= i < |ps| :: ps[i] == from + i
  {
    seq(if from < to then to - from else 0, i => from + i)
  }

  // What every event keeps

  /** The first plane of the window. */
  function WindowStart(s: Stream): nat {
    if s.taken.Some? && !s.shown then |s.published| + 1 else |s.published|
  }

  predicate Waiting(s: Stream, z: nat) {
    s.taken == Some(z) && !s.shown
  }

  ghost predicate InCpu(s: Stream, count: nat, workers: nat) {
    && WindowStart(s) <= s.next
    && s.window == Planes(WindowStart(s), s.next)
    && (s.taken.Some? ==> s.taken.value == (if s.shown then |s.published| - 1 else |s.published|))
    && (s.taken.Some? && s.shown ==> s.published != [])
    && |s.window| + (if s.taken.Some? then 1 else 0) <= Width(workers)
    && (workers <= 1 ==> s.window == [])
    && (workers > 1 && s.taken.None? && s.published != [] ==> s.window != [] || s.next == count)
    && (forall z | z in s.cpu && Live(s.cpu[z]) :: z in s.window || Waiting(s, z))
    && !s.broken
  }

  /** Whatever is not cancelled yet is still in the window, and nothing else is queued. */
  ghost predicate InClosing(s: Stream, count: nat, workers: nat)
    requires s.phase.Closing?
  {
    && s.phase.cancelled <= |s.window| <= Width(workers) && s.taken.None?
    && (forall z | z in s.cpu && Live(s.cpu[z]) :: z in s.window)
    && (forall z | z in s.cpu && s.cpu[z].Queued? :: z in s.window[s.phase.cancelled..])
    && (s.phase.handOver ==> |s.published| < count && !s.broken)
    && (!s.phase.handOver && !s.broken ==> |s.published| == count)
  }

  ghost predicate InGpu(s: Stream, count: nat) {
    && AllOver(s.cpu) && !s.broken
    && (forall z | z in s.gpu :: z <= |s.published|)
    && (forall z | z in s.gpu && Live(s.gpu[z]) :: s.ahead == Some(z) || Waiting(s, z))
    && (s.taken.Some? && !s.shown ==> s.taken.value == |s.published| < count && s.ahead.None?)
    && (s.taken.Some? && s.shown ==> s.taken.value + 1 == |s.published|)
    && (s.ahead.Some? ==> s.ahead.value == |s.published| < count && s.ahead.value in s.gpu)
    && (s.taken.Some? ==> s.taken.value in s.gpu)
    && (s.ahead.None? && !(s.taken.Some? && !s.shown) ==> s.gpu == map[] || |s.published| == count)
  }

  ghost predicate InGpuClosing(s: Stream, count: nat) {
    && AllOver(s.cpu) && s.taken.None?
    && (forall z | z in s.gpu :: z <= |s.published|)
    && (forall z | z in s.gpu && Live(s.gpu[z]) :: s.ahead == Some(z))
    && (s.ahead.Some? ==> s.ahead.value in s.gpu)
    && (!s.broken ==> |s.published| == count)
  }

  ghost predicate Inv(s: Stream, count: nat, workers: nat) {
    && s.published == Planes(0, |s.published|) && |s.published| <= count && s.next <= count
    && (forall z | z in s.cpu :: z < s.next)
    && (if s.phase.Cpu? || s.phase.Closing? then s.gpu == map[] && s.ahead.None? else s.window == [])
    && match s.phase
       case Cpu => InCpu(s, count, workers)
       case Closing(_, _) => InClosing(s, count, workers)
       case Gpu => InGpu(s, count)
       case GpuClosing => InGpuClosing(s, count)
       case Over => AllOver(s.cpu) && AllOver(s.gpu) && (!s.broken ==> |s.published| == count)
  }

  lemma {:induction false} PlanesGrow(from: nat, to: nat)
    requires from <= to
    ensures Planes(from, to + 1) == Planes(from, to) + [to]
    ensures from < to ==> Planes(from, to)[1..] == Planes(from + 1, to)
  {
  }

  lemma {:induction false} OperationKeeps(s: Stream, count: nat, workers: nat, e: Event)
    requires Inv(s, count, workers) && s.phase.Cpu? && (e.Start? || e.Finish?)
    ensures Inv(NextCpu(s, count, workers, e), count, workers)
  {
  }

  lemma {:induction false} SubmitKeeps(s: Stream, count: nat, workers: nat, e: Event)
    requires Inv(s, count, workers) && s.phase.Cpu? && (e.Submit? || e.Resume?)
    ensures Inv(NextCpu(s, count, workers, e), count, workers)
  {
    if |s.published| <= s.next {
      PlanesGrow(|s.published|, s.next);
    }
  }

  lemma {:induction false} TakeKeeps(s: Stream, count: nat, workers: nat, e: Event)
    requires Inv(s, count, workers) && s.phase.Cpu? && (e.Take? || e.Yield?)
    ensures Inv(NextCpu(s, count, workers, e), count, workers)
  {
    PlanesGrow(0, |s.published|);
    if |s.published| <= s.next {
      PlanesGrow(|s.published|, s.next);
    }
  }

  lemma {:induction false} LeaveKeeps(s: Stream, count: nat, workers: nat, e: Event)
    requires Inv(s, count, workers) && s.phase.Cpu?
    requires !e.Start? && !e.Finish? && !e.Submit? && !e.Resume? && !e.Take? && !e.Yield?
    ensures Inv(NextCpu(s, count, workers, e), count, workers)
  {
  }

  lemma {:induction false} CpuStepKeeps(s: Stream, count: nat, workers: nat, e: Event)
    requires Inv(s, count, workers) && s.phase.Cpu?
    ensures Inv(NextCpu(s, count, workers, e), count, workers)
  {
    hide *;
    if e.Start? || e.Finish? {
      OperationKeeps(s, count, workers, e);
    } else if e.Submit? || e.Resume? {
      SubmitKeeps(s, count, workers, e);
    } else if e.Take? || e.Yield? {
      TakeKeeps(s, count, workers, e);
    } else {
      LeaveKeeps(s, count, workers, e);
    }
  }

  lemma {:induction false} ClosingStepKeeps(s: Stream, count: nat, workers: nat, e: Event)
    requires Inv(s, count, workers) && s.phase.Closing?
    ensures Inv(NextCpu(s, count, workers, e), count, workers)
  {
    if e.Cancel? && s.phase.cancelled < |s.window| {
      var k := s.phase.cancelled;
      assert s.window[k..] == [s.window[k]] + s.window[k + 1..];
    }
  }

  lemma {:induction false} OtherStepKeeps(s: Stream, count: nat, workers: nat, e: Event)
    requires Inv(s, count, workers) && !s.phase.Cpu? && !s.phase.Closing?
    ensures Inv(NextCpu(s, count, workers, e), count, workers)
  {
  }

  lemma {:induction false} GpuOperationKeeps(s: Stream, count: nat, workers: nat, e: Event)
    requires Inv(s, count, workers) && (e.GpuStart? || e.GpuFinish?)
    ensures Inv(NextGpu(s, count, e), count, workers)
  {
  }

  lemma {:induction false} GpuYieldKeeps(s: Stream, count: nat, workers: nat)
    requires Inv(s, count, workers)
    ensures Inv(NextGpu(s, count, GpuYield), count, workers)
  {
    PlanesGrow(0, |s.published|);
  }

  lemma {:induction false} GpuMoveKeeps(s: Stream, count: nat, workers: nat, e: Event)
    requires Inv(s, count, workers) && !e.GpuStart? && !e.GpuFinish? && !e.GpuYield?
    ensures Inv(NextGpu(s, count, e), count, workers)
  {
  }

  lemma {:induction false} GpuStepKeeps(s: Stream, count: nat, workers: nat, e: Event)
    requires Inv(s, count, workers)
    ensures Inv(NextGpu(s, count, e), count, workers)
  {
    hide *;
    if e.GpuStart? || e.GpuFinish? {
      GpuOperationKeeps(s, count, workers, e);
    } else if e.GpuYield? {
      GpuYieldKeeps(s, count, workers);
    } else {
      GpuMoveKeeps(s, count, workers, e);
    }
  }

  lemma {:induction false} StepKeeps(s: Stream, count: nat, workers: nat, e: Event)
    requires Inv(s, count, workers)
    ensures Inv(Next(s, count, workers, e), count, workers)
  {
    hide Inv, NextCpu, NextGpu;
    GpuStepKeeps(s, count, workers, e);
    if s.phase.Cpu? {
      CpuStepKeeps(s, count, workers, e);
    } else if s.phase.Closing? {
      ClosingStepKeeps(s, count, workers, e);
    } else {
      OtherStepKeeps(s, count, workers, e);
    }
  }

  lemma {:induction false} Reachable(gpu: bool, count: nat, workers: nat, es: seq<Event>)
    ensures Inv(Run(gpu, count, workers, es), count, workers)
  {
    hide Next, Inv;
    if es != [] {
      Reachable(gpu, count, workers, es[..|es| - 1]);
      StepKeeps(Run(gpu, count, workers, es[..|es| - 1]), count, workers, es[|es| - 1]);
    } else {
      BeginKeeps(gpu, count, workers);
    }
  }

  lemma {:induction false} BeginKeeps(gpu: bool, count: nat, workers: nat)
    ensures Inv(Begin(gpu), count, workers)
  {
  }

  // Whole runs

  function Elements(zs: seq<nat>): set<nat> {
    set z | z in zs
  }

  lemma {:induction false} ElementsAtMost(zs: seq<nat>)
    ensures |Elements(zs)| <= |zs|
  {
    if zs == [] {
      assert Elements(zs) == {};
    } else {
      var init, last := zs[..|zs| - 1], zs[|zs| - 1];
      ElementsAtMost(init);
      assert Elements(zs) == Elements(init) + {last};
      Fewer(Elements(init) + {last}, Elements(init) + {last});
    }
  }

  /** The CPU planes whose results the stream or its consumer retains. */
  function Retained(s: Stream): set<nat> {
    Elements(s.window) + (if s.taken.Some? then {s.taken.value} else {})
  }

  /** Whenever the handover comes and however the operations go, the planes published so far are the
      first ones, each once and in order, and the CPU window and the consumer together never retain more
      planes than there are workers. */
  lemma {:induction false} PublishedInOrder(gpu: bool, count: nat, workers: nat, es: seq<Event>)
    ensures var s := Run(gpu, count, workers, es);
      && s.published == Planes(0, |s.published|) && |s.published| <= count
      && |Retained(s)| <= Width(workers)
      && (forall z <- s.window :: z in Retained(s)) && (s.taken.Some? ==> s.taken.value in Retained(s))
  {
    hide Run;
    Reachable(gpu, count, workers, es);
    ElementsAtMost(Run(gpu, count, workers, es).window);
  }

  /** Once the GPU phase begins, no CPU operation is running or queued, and none starts any more. */
  lemma {:induction false} GpuWorksAlone(gpu: bool, count: nat, workers: nat, es: seq<Event>, later: seq<Event>)
    requires var s := Run(gpu, count, workers, es); !s.phase.Cpu? && !s.phase.Closing?
    ensures AllOver(Run(gpu, count, workers, es).cpu)
    ensures Run(gpu, count, workers, es + later).cpu == Run(gpu, count, workers, es).cpu
    decreases |later|
  {
    Reachable(gpu, count, workers, es);
    if later == [] {
      assert es + later == es;
    } else {
      var init, e := later[..|later| - 1], later[|later| - 1];
      GpuWorksAlone(gpu, count, workers, es, init);
      GpuStays(gpu, count, workers, es, init);
      Reachable(gpu, count, workers, es + init);
      assert (es + later)[..|es + later| - 1] == es + init && (es + later)[|es + later| - 1] == e;
      hide Run, Inv;
      NothingStarts(Run(gpu, count, workers, es + init), count, workers, e);
    }
  }

  lemma {:induction false} NothingStarts(s: Stream, count: nat, workers: nat, e: Event)
    requires AllOver(s.cpu) && !s.phase.Cpu? && !s.phase.Closing?
    ensures Next(s, count, workers, e).cpu == s.cpu
    ensures var n := Next(s, count, workers, e); !n.phase.Cpu? && !n.phase.Closing?
  {
  }

  lemma {:induction false} GpuStays(gpu: bool, count: nat, workers: nat, es: seq<Event>, later: seq<Event>)
    requires var s := Run(gpu, count, workers, es); AllOver(s.cpu) && !s.phase.Cpu? && !s.phase.Closing?
    ensures var s := Run(gpu, count, workers, es + later); AllOver(s.cpu) && !s.phase.Cpu? && !s.phase.Closing?
    decreases |later|
  {
    if later == [] {
      assert es + later == es;
    } else {
      var init, e := later[..|later| - 1], later[|later| - 1];
      GpuStays(gpu, count, workers, es, init);
      assert (es + later)[..|es + later| - 1] == es + init && (es + later)[|es + later| - 1] == e;
      hide Run, AllOver;
      NothingStarts(Run(gpu, count, workers, es + init), count, workers, e);
    }
  }

  /** The planes that the GPU side holds: operations under way, the result the consumer waits for or
      owns, and the one behind it. */
  function GpuHolds(s: Stream): set<nat> {
    set z | z in s.gpu && (Live(s.gpu[z]) || s.taken == Some(z) || s.ahead == Some(z))
  }

  /** The plane that is taken and the one ahead. */
  function Ends(s: Stream): set<nat> {
    (if s.taken.Some? then {s.taken.value} else {}) + (if s.ahead.Some? then {s.ahead.value} else {})
  }

  lemma {:induction false} GpuState(s: Stream, count: nat, workers: nat)
    requires Inv(s, count, workers)
    ensures GpuHolds(s) <= Ends(s)
    ensures forall z | z in s.gpu && Live(s.gpu[z]) :: z <= |s.published|
    ensures forall y, z | y in s.gpu && z in s.gpu && Live(s.gpu[y]) && Live(s.gpu[z]) :: y == z
  {
    hide InCpu, InClosing, Planes, Live;
  }

  /** The GPU side holds at most two planes, runs at most one operation, and is never further than the
      plane behind the last published. */
  lemma {:induction false} GpuHoldsTwo(gpu: bool, count: nat, workers: nat, es: seq<Event>)
    ensures var s := Run(gpu, count, workers, es);
      && |GpuHolds(s)| <= 2
      && (forall z | z in s.gpu && Live(s.gpu[z]) :: z <= |s.published|)
      && (forall y, z | y in s.gpu && z in s.gpu && Live(s.gpu[y]) && Live(s.gpu[z]) :: y == z)
  {
    hide Run, Inv, GpuHolds, Live;
    Reachable(gpu, count, workers, es);
    var s := Run(gpu, count, workers, es);
    GpuState(s, count, workers);
    Fewer(GpuHolds(s), Ends(s));
  }

  lemma {:induction false} Fewer(a: set<nat>, b: set<nat>)
    requires a <= b
    ensures |a| <= |b|
  {
    assert b == a + (b - a);
  }

  /** A stream that is over has joined all its operations, on the CPU and on the GPU, and unless it was
      cut short it has published every plane. */
  lemma {:induction false} EndsComplete(gpu: bool, count: nat, workers: nat, es: seq<Event>)
    ensures var s := Run(gpu, count, workers, es);
      s.phase.Over? ==> AllOver(s.cpu) && AllOver(s.gpu) && (!s.broken ==> |s.published| == count)
  {
    Reachable(gpu, count, workers, es);
  }

  /** Closing always gets there: as long as an operation is under way it can finish, and otherwise the
      next plane is cancelled or the threads are joined. */
  lemma {:induction false} ClosingAdvances(s: Stream, count: nat, workers: nat)
    requires Inv(s, count, workers) && s.phase.Closing? && Next(s, count, workers, Cancel) == s
    ensures Next(s, count, workers, Joined) != s || exists z :: z in s.cpu && s.cpu[z].Running?
  {
  }
}
