/** The ordered stream never gets stuck, and can always publish every plane. */
module PlanesProgress {
  import opened Options
  import opened OrderedPlanes

  // Whatever the stream still counts on has been submitted

  predicate Submitted(ops: map<nat, Status>, z: nat) {
    z in ops && !ops[z].Cancelled?
  }

  predicate Tracked(s: Stream) {
    && (s.phase.Cpu? ==>
          (forall z | z in s.window :: Submitted(s.cpu, z)) && (s.taken.Some? ==> Submitted(s.cpu, s.taken.value)))
    && (s.phase.Gpu? ==>
          && (s.taken.Some? ==> Submitted(s.gpu, s.taken.value)) && (s.ahead.Some? ==> Submitted(s.gpu, s.ahead.value)))
  }

  lemma {:induction false} CpuTracked(s: Stream, count: nat, workers: nat, e: Event)
    requires Inv(s, count, workers) && Tracked(s)
    ensures Tracked(NextCpu(s, count, workers, e))
  {
    hide InCpu, InGpu, InGpuClosing, Planes;
  }

  lemma {:induction false} GpuTracked(s: Stream, count: nat, workers: nat, e: Event)
    requires Inv(s, count, workers) && Tracked(s)
    ensures Tracked(NextGpu(s, count, e))
  {
    hide InCpu, InClosing, InGpuClosing, Planes;
  }

  lemma {:induction false} StepTracked(s: Stream, count: nat, workers: nat, e: Event)
    requires Inv(s, count, workers) && Tracked(s)
    ensures Tracked(Next(s, count, workers, e))
  {
    hide Inv, Tracked, NextCpu, NextGpu;
    CpuTracked(s, count, workers, e);
    GpuTracked(s, count, workers, e);
  }

  lemma {:induction false} RunTracked(gpu: bool, count: nat, workers: nat, es: seq<Event>)
    ensures Tracked(Run(gpu, count, workers, es))
  {
    if es != [] {
      hide Next, Inv, Tracked;
      RunTracked(gpu, count, workers, es[..|es| - 1]);
      Reachable(gpu, count, workers, es[..|es| - 1]);
      StepTracked(Run(gpu, count, workers, es[..|es| - 1]), count, workers, es[|es| - 1]);
    }
  }

  // One step on

  /** What an operation needs next so that its plane can be shown. */
  function Work(ops: map<nat, Status>, z: nat, start: Event, finish: Event, show: Event, fail: Event): Event {
    if z !in ops then show
    else match ops[z]
      case Queued => start
      case Running => finish
      case Failed => fail
      case _ => show
  }

  ghost function SomeRunning(ops: map<nat, Status>): nat
    requires !Idle(ops)
    ensures SomeRunning(ops) in ops && ops[SomeRunning(ops)].Running?
  {
    var z :| z in ops && ops[z].Running?;
    z
  }

  /** An event that brings the stream on, with no failure of its own. */
  ghost function Advance(s: Stream, count: nat, workers: nat): Event {
    match s.phase
    case Cpu =>
      if s.taken.Some? then
        var z := s.taken.value;
        if s.shown then Resume else Work(s.cpu, z, Start(z), Finish(z, false), Yield, Raise)
      else if s.window != [] || (workers <= 1 && s.next < count) then Take
      else if s.next == count then End
      else Submit
    case Closing(cancelled, _) =>
      if cancelled < |s.window| then Cancel else if !Idle(s.cpu) then Finish(SomeRunning(s.cpu), false) else Joined
    case Gpu =>
      if s.taken.Some? then
        var z := s.taken.value;
        if s.shown then GpuResume else Work(s.gpu, z, GpuStart(z), GpuFinish(z, false), GpuYield, GpuRaise)
      else if s.ahead.Some? then GpuTake
      else if |s.published| == count then GpuEnd
      else GpuBegin
    case GpuClosing =>
      if s.ahead.Some? && s.ahead.value in s.gpu && s.gpu[s.ahead.value].Running? then GpuFinish(s.ahead.value, false)
      else if s.ahead.Some? then GpuCancel
      else GpuJoined
    case Over => End
  }

  // How far there is to go

  function Rank(phase: Phase): nat {
    match phase
    case Cpu => 4
    case Closing(_, _) => 3
    case Gpu => 2
    case GpuClosing => 1
    case Over => 0
  }

  function Left(s: Stream, count: nat): nat {
    if count >= |s.published| then count - |s.published| else 0
  }

  function Steps(ops: map<nat, Status>, z: nat): nat {
    if z !in ops then 1
    else match ops[z]
      case Queued => 3
      case Running => 2
      case _ => 1
  }

  function Inner(s: Stream): nat {
    match s.phase
    case Cpu =>
      if s.taken.Some? then (if s.shown then 7 else Steps(s.cpu, s.taken.value)) else if s.window != [] then 5 else 6
    case Closing(cancelled, _) => if cancelled < |s.window| then |s.window| - cancelled else 0
    case Gpu =>
      if s.taken.Some? then (if s.shown then 7 else Steps(s.gpu, s.taken.value)) else if s.ahead.Some? then 5 else 6
    case GpuClosing => if s.ahead.Some? then Steps(s.gpu, s.ahead.value) + 1 else 0
    case Over => 0
  }

  function AtWork(ops: map<nat, Status>): set<nat> {
    set z | z in ops && ops[z].Running?
  }

  function Busy(ops: map<nat, Status>): nat {
    |AtWork(ops)|
  }

  predicate Nearer(s: Stream, n: Stream, count: nat) {
    || Rank(n.phase) < Rank(s.phase)
    || (Rank(n.phase) == Rank(s.phase) && Left(n, count) < Left(s, count))
    || (Rank(n.phase) == Rank(s.phase) && Left(n, count) == Left(s, count) && Inner(n) < Inner(s))
    || (Rank(n.phase) == Rank(s.phase) && Left(n, count) == Left(s, count) && Inner(n) == Inner(s)
        && Busy(n.cpu) < Busy(s.cpu))
  }

  lemma {:induction false} LessBusy(ops: map<nat, Status>, z: nat)
    requires z in ops && ops[z].Running?
    ensures Busy(Finished(ops, z, false)) < Busy(ops)
  {
    assert z in AtWork(ops) && AtWork(Finished(ops, z, false)) == AtWork(ops) - {z};
  }

  lemma {:induction false} CpuNearer(s: Stream, count: nat, workers: nat)
    requires Inv(s, count, workers) && Tracked(s) && s.phase.Cpu?
    ensures Nearer(s, Next(s, count, workers, Advance(s, count, workers)), count)
  {
    hide Busy, Idle, Planes;
  }

  lemma {:induction false} ClosingNearer(s: Stream, count: nat, workers: nat)
    requires Inv(s, count, workers) && s.phase.Closing?
    ensures Nearer(s, Next(s, count, workers, Advance(s, count, workers)), count)
  {
    hide Busy, Planes;
    if s.phase.cancelled >= |s.window| && !Idle(s.cpu) {
      var z := SomeRunning(s.cpu);
      LessBusy(s.cpu, z);
      assert Next(s, count, workers, Finish(z, false)) == s.(cpu := Finished(s.cpu, z, false));
    }
  }

  lemma {:induction false} GpuNearer(s: Stream, count: nat, workers: nat)
    requires Inv(s, count, workers) && Tracked(s) && (s.phase.Gpu? || s.phase.GpuClosing?)
    ensures Nearer(s, Next(s, count, workers, Advance(s, count, workers)), count)
  {
    hide Busy, Planes;
  }

  lemma {:induction false} AdvanceNearer(s: Stream, count: nat, workers: nat)
    requires Inv(s, count, workers) && Tracked(s) && !s.phase.Over?
    ensures Nearer(s, Next(s, count, workers, Advance(s, count, workers)), count)
  {
    hide Inv, Tracked, Next, Nearer, Advance;
    if s.phase.Cpu? {
      CpuNearer(s, count, workers);
    } else if s.phase.Closing? {
      ClosingNearer(s, count, workers);
    } else {
      GpuNearer(s, count, workers);
    }
  }

  // To the end

  function Continued(s: Stream, count: nat, workers: nat, es: seq<Event>): Stream
    decreases |es|
  {
    if es == [] then s else Continued(Next(s, count, workers, es[0]), count, workers, es[1..])
  }

  lemma {:induction false} RunContinues(gpu: bool, count: nat, workers: nat, es: seq<Event>, more: seq<Event>)
    ensures Run(gpu, count, workers, es + more) == Continued(Run(gpu, count, workers, es), count, workers, more)
    decreases |more|
  {
    hide Next;
    if more == [] {
      assert es + more == es;
    } else {
      assert es + more == (es + [more[0]]) + more[1..];
      RunContinues(gpu, count, workers, es + [more[0]], more[1..]);
      assert (es + [more[0]])[..|es + [more[0]]| - 1] == es;
    }
  }

  /** Nothing has cut the stream short, and no plane that it still counts on has failed. */
  predicate Untroubled(s: Stream) {
    && !s.broken
    && (s.phase.Cpu? ==>
          && (forall z | z in s.window :: z in s.cpu ==> !s.cpu[z].Failed?)
          && (s.taken.Some? && !s.shown && s.taken.value in s.cpu ==> !s.cpu[s.taken.value].Failed?))
    && (s.phase.Gpu? ==>
          && (s.taken.Some? && !s.shown && s.taken.value in s.gpu ==> !s.gpu[s.taken.value].Failed?)
          && (s.ahead.Some? && s.ahead.value in s.gpu ==> !s.gpu[s.ahead.value].Failed?))
  }

  lemma {:induction false} AdvanceUntroubled(s: Stream, count: nat, workers: nat)
    requires Inv(s, count, workers) && Tracked(s) && !s.phase.Over? && Untroubled(s)
    ensures Untroubled(Next(s, count, workers, Advance(s, count, workers)))
  {
    hide Planes, Idle;
  }

  lemma {:induction false} Finishes(s: Stream, count: nat, workers: nat) returns (more: seq<Event>)
    requires Inv(s, count, workers) && Tracked(s)
    ensures Continued(s, count, workers, more).phase.Over?
    ensures Untroubled(s) ==> Continued(s, count, workers, more).published == Planes(0, count)
    decreases Rank(s.phase), Left(s, count), Inner(s), Busy(s.cpu)
  {
    hide Next, Advance, Rank, Left, Inner, Busy, Untroubled, Tracked;
    if s.phase.Over? {
      more := [];
      if Untroubled(s) {
        NotBroken(s);
      }
    } else {
      var e := Advance(s, count, workers);
      AdvanceNearer(s, count, workers);
      StepKeeps(s, count, workers, e);
      StepTracked(s, count, workers, e);
      if Untroubled(s) {
        AdvanceUntroubled(s, count, workers);
      }
      var rest := Finishes(Next(s, count, workers, e), count, workers);
      more := [e] + rest;
      assert more[1..] == rest;
    }
  }

  lemma {:induction false} NotBroken(s: Stream)
    requires Untroubled(s)
    ensures !s.broken
  {
  }

  /** Whatever has happened, a stream that is not over goes on: some event changes it. */
  lemma {:induction false} NeverStuck(gpu: bool, count: nat, workers: nat, es: seq<Event>)
    requires !Run(gpu, count, workers, es).phase.Over?
    ensures exists e :: Run(gpu, count, workers, es + [e]) != Run(gpu, count, workers, es)
  {
    hide *;
    var s := Run(gpu, count, workers, es);
    Reachable(gpu, count, workers, es);
    RunTracked(gpu, count, workers, es);
    AdvanceNearer(s, count, workers);
    var e := Advance(s, count, workers);
    NearerDiffers(s, Next(s, count, workers, e), count);
    RunOneMore(gpu, count, workers, es, e);
  }

  lemma {:induction false} NearerDiffers(s: Stream, n: Stream, count: nat)
    requires Nearer(s, n, count)
    ensures n != s
  {
  }

  lemma {:induction false} RunOneMore(gpu: bool, count: nat, workers: nat, es: seq<Event>, e: Event)
    ensures Run(gpu, count, workers, es + [e]) == Next(Run(gpu, count, workers, es), count, workers, e)
  {
    hide Next;
    assert (es + [e])[..|es + [e]| - 1] == es;
  }

  /** And it can always be brought to its end; as long as nothing has cut it short and nothing that it counts on
      has failed, to an end at which every plane has been published, each once and in order. */
  lemma {:induction false} EveryPlaneCanBePublished(gpu: bool, count: nat, workers: nat, es: seq<Event>)
        returns (more: seq<Event>)
    ensures Run(gpu, count, workers, es + more).phase.Over?
    ensures Untroubled(Run(gpu, count, workers, es)) ==>
              Run(gpu, count, workers, es + more).published == Planes(0, count)
  {
    hide *;
    Reachable(gpu, count, workers, es);
    RunTracked(gpu, count, workers, es);
    more := Finishes(Run(gpu, count, workers, es), count, workers);
    RunContinues(gpu, count, workers, es, more);
  }

  // Cutting short and handing over

  /** A stream starts on the side it is asked for, with nothing submitted. */
  lemma {:induction false} StartsAt(gpu: bool, count: nat, workers: nat)
    ensures var s := Run(gpu, count, workers, []);
      && s.phase == (if gpu then Gpu else Cpu) && s.published == [] && s.window == [] && s.cpu == s.gpu == map[]
  {
  }

  predicate Short(s: Stream, count: nat) {
    s.broken ==> |s.published| < count
  }

  lemma {:induction false} StepShort(s: Stream, count: nat, workers: nat, e: Event)
    requires Inv(s, count, workers) && Short(s, count)
    ensures Short(Next(s, count, workers, e), count)
  {
    hide Planes, InGpuClosing, Idle;
  }

  lemma {:induction false} RunShort(gpu: bool, count: nat, workers: nat, es: seq<Event>)
    ensures Short(Run(gpu, count, workers, es), count)
  {
    if es != [] {
      hide Next, Inv, Short;
      RunShort(gpu, count, workers, es[..|es| - 1]);
      Reachable(gpu, count, workers, es[..|es| - 1]);
      StepShort(Run(gpu, count, workers, es[..|es| - 1]), count, workers, es[|es| - 1]);
    }
  }

  /** A stream that is over was cut short exactly when planes are missing. */
  lemma {:induction false} CutShortMeansMissing(gpu: bool, count: nat, workers: nat, es: seq<Event>)
    requires Run(gpu, count, workers, es).phase.Over?
    ensures Run(gpu, count, workers, es).broken <==> |Run(gpu, count, workers, es).published| < count
  {
    hide Run, Inv;
    RunShort(gpu, count, workers, es);
    EndsComplete(gpu, count, workers, es);
  }

  /** A failed plane that the consumer asks for, and a consumer that leaves, close the stream; the planes already
      published stay. */
  lemma {:induction false} FailureCloses(s: Stream, count: nat, workers: nat)
    requires s.taken.Some?
    ensures s.phase.Cpu? && !s.shown && s.taken.value in s.cpu && s.cpu[s.taken.value].Failed? ==>
      var n := Next(s, count, workers, Raise);
      n.phase == Closing(0, false) && n.published == s.published && n.window == s.window && n.cpu == s.cpu
    ensures s.phase.Cpu? && s.shown ==>
      var n := Next(s, count, workers, Abandon);
      n.phase == Closing(0, false) && n.published == s.published && n.window == s.window && n.cpu == s.cpu
    ensures s.phase.Gpu? && !s.shown && s.taken.value in s.gpu && s.gpu[s.taken.value].Failed? ==>
      var n := Next(s, count, workers, GpuRaise);
      n.phase == GpuClosing && n.published == s.published && n.ahead == s.ahead && n.gpu == s.gpu
    ensures s.phase.Gpu? && s.shown ==>
      var n := Next(s, count, workers, GpuAbandon);
      n.phase == GpuClosing && n.published == s.published && n.ahead == s.ahead && n.gpu == s.gpu
  {
  }

  /** Whatever has become of the window, a consumer that holds a plane can hand over to the GPU, and then all
      remaining planes can be published. */
  lemma {:induction false} HandOverPublishesRest(gpu: bool, count: nat, workers: nat, es: seq<Event>)
        returns (more: seq<Event>)
    requires var s := Run(gpu, count, workers, es); s.phase.Cpu? && s.taken.Some? && s.shown && |s.published| < count
    ensures Run(gpu, count, workers, es + [HandOver]).phase == Closing(0, true)
    ensures Run(gpu, count, workers, es + [HandOver] + more).published == Planes(0, count)
  {
    hide Run, Inv;
    var s := Run(gpu, count, workers, es);
    Reachable(gpu, count, workers, es);
    RunOneMore(gpu, count, workers, es, HandOver);
    CpuIsWhole(s, count, workers);
    more := EveryPlaneCanBePublished(gpu, count, workers, es + [HandOver]);
  }

  lemma {:induction false} CpuIsWhole(s: Stream, count: nat, workers: nat)
    requires Inv(s, count, workers) && s.phase.Cpu?
    ensures !s.broken
  {
  }

  // Operations

  /** A queued operation starts or is cancelled, a running one is done or fails, and nothing else happens to it. */
  predicate MovesOn(was: Status, now: Status, closing: bool) {
    || now == was
    || (was.Queued? && (now.Running? || (now.Cancelled? && closing)))
    || (was.Running? && (now.Done? || now.Failed?))
  }

  ghost predicate AllMoveOn(was: map<nat, Status>, now: map<nat, Status>, closing: bool) {
    forall z <- was :: z in now && MovesOn(was[z], now[z], closing)
  }

  lemma {:induction false} CpuMovesOn(s: Stream, count: nat, workers: nat, e: Event)
    requires Inv(s, count, workers)
    ensures AllMoveOn(s.cpu, NextCpu(s, count, workers, e).cpu, s.phase.Closing?)
    ensures NextCpu(s, count, workers, e).gpu == s.gpu
  {
    hide InCpu, InGpu, InGpuClosing, InClosing, Planes;
  }

  lemma {:induction false} GpuMovesOn(s: Stream, count: nat, workers: nat, e: Event)
    requires Inv(s, count, workers)
    ensures AllMoveOn(s.gpu, NextGpu(s, count, e).gpu, s.phase.GpuClosing?)
    ensures NextGpu(s, count, e).cpu == s.cpu
  {
    hide Inv;
    if e.GpuYield? && s.phase.Gpu? && s.taken.Some? && !s.shown {
      NothingAhead(s, count, workers);
    }
  }

  lemma {:induction false} NothingAhead(s: Stream, count: nat, workers: nat)
    requires Inv(s, count, workers) && s.phase.Gpu? && s.taken.Some? && !s.shown
    ensures s.taken.value + 1 !in s.gpu
  {
    hide InCpu, InGpuClosing, InClosing, Planes;
  }

  /** In every run an operation that has started goes on until it is done or fails, and one that is queued is
      cancelled only while its producer is being closed. */
  lemma {:induction false} StartedRunsToEnd(gpu: bool, count: nat, workers: nat, es: seq<Event>, e: Event)
    ensures var s, n := Run(gpu, count, workers, es), Run(gpu, count, workers, es + [e]);
      AllMoveOn(s.cpu, n.cpu, s.phase.Closing?) && AllMoveOn(s.gpu, n.gpu, s.phase.GpuClosing?)
  {
    hide Inv, Run, NextCpu, NextGpu;
    Reachable(gpu, count, workers, es);
    RunOneMore(gpu, count, workers, es, e);
    CpuMovesOn(Run(gpu, count, workers, es), count, workers, e);
    GpuMovesOn(Run(gpu, count, workers, es), count, workers, e);
  }
}
