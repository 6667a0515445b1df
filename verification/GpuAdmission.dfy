/** Which stages get a device over whole runs, whatever the interleaving. */
module GpuAdmission {
  import opened Options
  import opened GpuStages
  import opened GpuClaims
  import opened GpuSafety
  import opened GpuAccounts
  import opened GpuRules
  import opened GpuRuns

  // Only a commit installs a lease

  /** Every lease and token was there before. */
  predicate InstallsNothing(c: Coordinator, c': Coordinator) {
    && (forall d <- c'.own.leases :: d in c.own.leases && c'.own.leases[d] == c.own.leases[d])
    && (forall d <- c'.own.tokens :: d in c.own.tokens && c'.own.tokens[d] == c.own.tokens[d])
  }

  lemma {:induction false} MoveInstallsNothing(c: Coordinator, c': Coordinator)
    requires QueueMove(c, c')
    ensures InstallsNothing(c, c')
  {
  }

  lemma {:induction false} QueueInstallsNothing(s: System, flags: Flags, now: int, e: Event)
    requires e.Turn? || e.CancelTurn? || e.Pressure? || e.Begin? || e.Finish?
    ensures InstallsNothing(s.c, Step(s, flags, now, e).c)
  {
    hide RequestTurn, Refresh, DropRequest, QueueMove, TurnLeft, NoFewer, FinishInference;
    match e
    case Turn(candidates, purpose) =>
      RequestTurnMoves(s.c, flags, candidates, purpose, now);
      MoveInstallsNothing(s.c, RequestTurn(s.c, flags, candidates, purpose, now));
    case Finish(d) =>
      FinishOwns(s.c, d);
    case Begin(d) =>
      RefreshQueueOnly(s.c, flags, now);
    case Pressure(active) =>
      RefreshQueueOnly(s.c.(pressure := active), flags, now);
    case CancelTurn(purpose, failed) =>
      RefreshQueueOnly(s.c.(queue := s.c.queue.(requests := if failed then []
          else DropRequest(s.c.queue.requests, purpose),
          retryAfter := if failed then now + COOLDOWN else s.c.queue.retryAfter)), flags, now);
  }

  lemma {:induction false} FinishOwns(c: Coordinator, d: int)
    ensures FinishInference(c, d).own == c.own
  {
  }

  lemma {:induction false} SectionInstallsNothing(s: System, flags: Flags, now: int, e: Event)
    requires e.ReserveStage? || e.Release?
    ensures InstallsNothing(s.c, Step(s, flags, now, e).c)
  {
    hide StageEligible, Refresh, TurnLeft, Projecting, NextRequest;
    match e
    case ReserveStage(_, d, purpose, epoch, resident) =>
      StageEligibleMoves(s.c, flags, d, purpose, None, resident, now);
    case Release(_, d, _, _) =>
      RefreshQueueOnly(Unleased(s.c, d), flags, now);
  }

  lemma {:induction false} OwnersInstallNothing(c: Coordinator, d: int, token: nat)
    ensures InstallsNothing(c, Quarantine(c, d, token)) && InstallsNothing(c, ReleaseResidency(c, d, token).1)
    ensures InstallsNothing(c, PopReservation(c, d, token)) && InstallsNothing(c, c)
  {
  }

  lemma {:induction false} PromoteInstallsNothing(c: Coordinator, d: int, purpose: Purpose, token: nat, owner: nat)
    ensures InstallsNothing(c, Promote(c, d, purpose, token, owner))
  {
    hide CanPromote, ClaimAt;
  }

  lemma {:induction false} SwitchesInstallNothing(c: Coordinator, d: int, task: nat, proofEpoch: nat, active: bool,
        workers: set<int>, now: int)
    ensures InstallsNothing(c, MarkRetired(c, d, task, proofEpoch)) && InstallsNothing(c, SetBacklog(c, active))
    ensures InstallsNothing(c, SetPriority(c, active)) && InstallsNothing(c, SetRetiring(c, active))
    ensures InstallsNothing(c, Configure(c, workers)) && InstallsNothing(c, FailedProbe(c, now))
  {
    hide CanRetire, FailedProbe;
    ProbeOwns(c, now);
  }

  lemma {:induction false} RestInstallsNothing(s: System, flags: Flags, now: int, e: Event)
    requires !e.Commit? && !e.Turn? && !e.CancelTurn? && !e.Pressure? && !e.Begin? && !e.Finish?
    requires !e.ReserveStage? && !e.Release?
    ensures InstallsNothing(s.c, Step(s, flags, now, e).c)
  {
    hide InstallsNothing, Smallest, StageClaims, Promote, Quarantine, ReleaseResidency, PopReservation, MarkRetired,
      Configure, FailedProbe, SetBacklog, SetPriority, SetRetiring;
    OwnersInstallNothing(s.c, 0, 0);
    match e
    case Backlog(active) => SwitchesInstallNothing(s.c, 0, 0, 0, active, {}, now);
    case Priority(active) => SwitchesInstallNothing(s.c, 0, 0, 0, active, {}, now);
    case Retiring(active) => SwitchesInstallNothing(s.c, 0, 0, 0, active, {}, now);
    case Retire(d, task, proofEpoch) => SwitchesInstallNothing(s.c, d, task, proofEpoch, true, {}, now);
    case Reconfigure(_, workers) => SwitchesInstallNothing(s.c, 0, 0, 0, true, workers, now);
    case ProbeFails(_) => SwitchesInstallNothing(s.c, 0, 0, 0, true, {}, now);
    case PromoteStage(d, purpose, token) => PromoteInstallsNothing(s.c, d, purpose, token, s.nextId);
    case QuarantineOwner(d, token) => OwnersInstallNothing(s.c, d, token);
    case ReleaseOwner(_, d, token) => OwnersInstallNothing(s.c, d, token);
    case Leave(tid) =>
      var t := ThreadOf(s, tid);
      if t.Leaving? {
        OwnersInstallNothing(s.c, t.device, t.reservation);
      }
    case _ =>
  }

  lemma {:induction false} ProbeOwns(c: Coordinator, now: int)
    ensures FailedProbe(c, now).own == c.own
  {
  }

  lemma {:induction false} OthersInstallNothing(s: System, flags: Flags, now: int, e: Event)
    requires !e.Commit?
    ensures InstallsNothing(s.c, Step(s, flags, now, e).c)
  {
    hide Step, InstallsNothing;
    if e.Turn? || e.CancelTurn? || e.Pressure? || e.Begin? || e.Finish? {
      QueueInstallsNothing(s, flags, now, e);
    } else if e.ReserveStage? || e.Release? {
      SectionInstallsNothing(s, flags, now, e);
    } else {
      RestInstallsNothing(s, flags, now, e);
    }
  }

  /** A lease that the step has put on the device. */
  predicate Installed(s: System, n: System, d: int) {
    && d in n.c.own.leases && d in n.c.own.tokens
    && !(d in s.c.own.tokens && s.c.own.tokens[d] == n.c.own.tokens[d])
  }

  /** Whatever has happened, a step that puts a lease on a device commits the claim of a thread whose stage is
      admitted there and then: nobody holds the device, nothing is in flight on it, and the rules of its
      residency, of inference priority and of the turn queue let the purpose in. */
  lemma {:induction false} LeaseWasAdmitted(flags: Flags, es: seq<Timed>, now: int, e: Event, d: int)
    requires var s := Run(Start, flags, es); Installed(s, Step(s, flags, now, e), d)
    ensures var s := Run(Start, flags, es);
      && e.Commit? && ThreadOf(s, e.tid).Claimed?
      && var a := ThreadOf(s, e.tid).attempt;
         && a.device == d && a.purpose == Step(s, flags, now, e).c.own.leases[d] && a.epoch == s.c.epoch
         && Admitted(s.c, flags, d, a.purpose, a.resident, now)
  {
    hide *;
    var s := Run(Start, flags, es);
    if !e.Commit? {
      OthersInstallNothing(s, flags, now, e);
    }
    NothingInstalled(s, Step(s, flags, now, e), d);
    CommitInstalls(s, flags, now, e, d);
  }

  lemma {:induction false} NothingInstalled(s: System, n: System, d: int)
    ensures InstallsNothing(s.c, n.c) ==> !Installed(s, n, d)
  {
  }

  lemma {:induction false} CommitInstalls(s: System, flags: Flags, now: int, e: Event, d: int)
    requires e.Commit? && Installed(s, Step(s, flags, now, e), d)
    ensures ThreadOf(s, e.tid).Claimed?
    ensures var a := ThreadOf(s, e.tid).attempt;
      && a.device == d && a.purpose == Step(s, flags, now, e).c.own.leases[d] && a.epoch == s.c.epoch
      && Admitted(s.c, flags, d, a.purpose, a.resident, now)
  {
    hide Admitted, StageEligible, DropRequest, TurnLeft, NoFewer;
    var t := ThreadOf(s, e.tid);
    if t.Claimed? {
      var a := t.attempt;
      StageEligibleMoves(s.c, flags, a.device, a.purpose, Some(a.reservation), a.resident, now);
      CommittedWhenAdmitted(s.c, flags, a.device, a.purpose, a.epoch, a.resident, a.reservation, t.claim, s.nextId,
          now);
    }
  }

  /** On a worker, without a residency of its own: while assets are being retired only a segmentation stage
      gets a device, and only one that is retired; while inference has priority only a projection does, or a
      backprojection that may overlap when no work is waiting. */
  lemma {:induction false} PriorityIsKept(flags: Flags, es: seq<Timed>, now: int, e: Event, d: int)
    requires var s := Run(Start, flags, es);
      && Installed(s, Step(s, flags, now, e), d) && d in s.c.workers
      && e.Commit? && ThreadOf(s, e.tid).Claimed? && ThreadOf(s, e.tid).attempt.resident.None?
    ensures var s := Run(Start, flags, es);
            var kind := Step(s, flags, now, e).c.own.leases[d].kind;
      && (s.c.retiring ==> kind == Sam && d in s.c.retired)
      && (s.c.priority && !s.c.retiring ==>
            kind == SourceProjection || (kind == Backprojection && flags.overlap && !s.c.backlog))
      && (kind == SourceProjection && s.c.backlog ==>
            s.c.queue.reserved == Some(d)
            && forall w <- s.c.own.leases :: s.c.own.leases[w].kind != SourceProjection)
  {
    hide Run, Step, Installed, Leads;
    LeaseWasAdmitted(flags, es, now, e, d);
  }

  // An admitted stage gets its device

  function Claim(tid: nat, d: int, purpose: Purpose, epoch: nat, resident: Option<nat>, answer: PoolAnswer,
        now: int): seq<Timed> {
    [Timed(now, ReserveStage(tid, d, purpose, epoch, resident)), Timed(now, ReadGuard(tid)),
     Timed(now, TakeClaim(tid, answer)), Timed(now, Commit(tid))]
  }

  lemma {:induction false} RunMore(s: System, flags: Flags, es: seq<Timed>, t: Timed)
    ensures Run(s, flags, es + [t]) == Step(Run(s, flags, es), flags, t.now, t.e)
  {
    hide Step;
    assert (es + [t])[..|es + [t]| - 1] == es;
  }

  lemma {:induction false} RunOfFour(s: System, flags: Flags, a: Timed, b: Timed, c: Timed, d: Timed)
    ensures Run(s, flags, [a, b, c, d])
         == Step(Step(Step(Step(s, flags, a.now, a.e), flags, b.now, b.e), flags, c.now, c.e), flags, d.now, d.e)
  {
    hide Step;
    RunMore(s, flags, [], a);
    RunMore(s, flags, [a], b);
    RunMore(s, flags, [a, b], c);
    RunMore(s, flags, [a, b, c], d);
    assert [] + [a] == [a] && [a] + [b] == [a, b] && [a, b] + [c] == [a, b, c] && [a, b, c] + [d] == [a, b, c, d];
  }

  /** A thread that claims a device without being disturbed gets it exactly when its stage is admitted and
      nobody has reserved the device; otherwise no owner changes. */
  lemma {:induction false} ClaimSucceeds(s: System, flags: Flags, tid: nat, d: int, purpose: Purpose,
        resident: Option<nat>, answer: PoolAnswer, now: int)
    requires ThreadOf(s, tid) == Idle && (answer.NoPool? || answer.Granted?)
    ensures var n := Run(s, flags, Claim(tid, d, purpose, s.c.epoch, resident, answer, now));
      if d !in s.c.own.provisional && Admitted(s.c, flags, d, purpose, resident, now)
      then n.c.own.leases == s.c.own.leases[d := purpose] && n.c.own.tokens == s.c.own.tokens[d := s.nextId + 3]
      else n.c.own == s.c.own
  {
    hide Admitted, Reserve, CommitStage, Step, Run;
    var es := Claim(tid, d, purpose, s.c.epoch, resident, answer, now);
    RunOfFour(s, flags, es[0], es[1], es[2], es[3]);
    ReservedWhenAdmitted(s.c, flags, d, purpose, s.c.epoch, resident, s.nextId, now);
    var s1 := Step(s, flags, now, es[0].e);
    ReserveStep(s, flags, tid, d, purpose, resident, now);
    if d !in s.c.own.provisional && Admitted(s.c, flags, d, purpose, resident, now) {
      StaysAdmitted(s.c, flags, d, purpose, resident, s.nextId, now);
      ReadyToCommit(s1, flags, tid, answer, now);
      var s3 := Step(Step(s1, flags, now, ReadGuard(tid)), flags, now, TakeClaim(tid, answer));
      CommitStep(s3, flags, tid, now);
    } else {
      RefusedOwns(s, flags, d, purpose, resident, now);
      NothingClaimed(s1, flags, tid, answer, now);
    }
  }

  lemma {:induction false} ReserveStep(s: System, flags: Flags, tid: nat, d: int, purpose: Purpose,
        resident: Option<nat>, now: int)
    requires ThreadOf(s, tid) == Idle
    ensures var (ok, c) := Reserve(s.c, flags, d, purpose, s.c.epoch, resident, s.nextId, now);
            var n := Step(s, flags, now, ReserveStage(tid, d, purpose, s.c.epoch, resident));
      && n.c == c && n.nextId == s.nextId + 1
      && ThreadOf(n, tid) == if ok then Claiming(Attempt(d, purpose, s.c.epoch, resident, s.nextId), false) else Idle
  {
    hide Reserve;
  }

  lemma {:induction false} ReadyToCommit(s: System, flags: Flags, tid: nat, answer: PoolAnswer, now: int)
    requires ThreadOf(s, tid).Claiming? && (answer.NoPool? || answer.Granted?)
    ensures var n := Step(Step(s, flags, now, ReadGuard(tid)), flags, now, TakeClaim(tid, answer));
      && n.c == s.c && n.nextId == s.nextId + 2
      && ThreadOf(n, tid).Claimed? && ThreadOf(n, tid).attempt == ThreadOf(s, tid).attempt
  {
    hide GuardedByResident;
  }

  lemma {:induction false} CommitOwns(c: Coordinator, flags: Flags, a: Attempt, claim: Option<nat>, token: nat,
        now: int)
    requires CommitStage(c, flags, a.device, a.purpose, a.epoch, a.resident, a.reservation, claim, token, now).0
    ensures var after := CommitStage(c, flags, a.device, a.purpose, a.epoch, a.resident, a.reservation, claim, token,
                now).1;
      after.own.leases == c.own.leases[a.device := a.purpose] && after.own.tokens == c.own.tokens[a.device := token]
  {
    hide StageEligible, DropRequest, TurnLeft, NoFewer;
    StageEligibleMoves(c, flags, a.device, a.purpose, Some(a.reservation), a.resident, now);
  }

  lemma {:induction false} CommitStep(s: System, flags: Flags, tid: nat, now: int)
    requires ThreadOf(s, tid).Claimed?
    requires var a := ThreadOf(s, tid).attempt;
      && a.epoch == s.c.epoch && a.device in s.c.own.provisional && s.c.own.provisional[a.device] == a.reservation
      && Admitted(s.c, flags, a.device, a.purpose, a.resident, now)
    ensures var a, n := ThreadOf(s, tid).attempt, Step(s, flags, now, Commit(tid));
      && n.c.own.leases == s.c.own.leases[a.device := a.purpose]
      && n.c.own.tokens == s.c.own.tokens[a.device := s.nextId]
  {
    hide Admitted, CommitStage;
    var t := ThreadOf(s, tid);
    var a := t.attempt;
    CommittedWhenAdmitted(s.c, flags, a.device, a.purpose, a.epoch, a.resident, a.reservation, t.claim, s.nextId, now);
    CommitOwns(s.c, flags, a, t.claim, s.nextId, now);
  }

  lemma {:induction false} RefusedOwns(s: System, flags: Flags, d: int, purpose: Purpose, resident: Option<nat>,
        now: int)
    ensures var (ok, c) := Reserve(s.c, flags, d, purpose, s.c.epoch, resident, s.nextId, now);
            !ok ==> c.own == s.c.own
  {
    hide StageEligible, TurnLeft, NoFewer;
    StageEligibleMoves(s.c, flags, d, purpose, None, resident, now);
  }

  lemma {:induction false} NothingClaimed(s: System, flags: Flags, tid: nat, answer: PoolAnswer, now: int)
    requires ThreadOf(s, tid) == Idle
    ensures Step(Step(Step(s, flags, now, ReadGuard(tid)), flags, now, TakeClaim(tid, answer)), flags, now,
                 Commit(tid)).c == s.c
  {
  }

  /** A claiming thread takes an auxiliary claim from a pool that has one, unless the device's residency holds
      one already; the claim it holds is then in the pool's books, and without one the books stay as they are. */
  lemma {:induction false} ClaimIsTakenOnce(s: System, flags: Flags, tid: nat, answer: PoolAnswer, now: int)
    requires ThreadOf(s, tid).Claiming? && (answer.NoPool? || answer.Granted?)
    ensures var d := ThreadOf(s, tid).attempt.device;
            var n := Run(s, flags, [Timed(now, ReadGuard(tid)), Timed(now, TakeClaim(tid, answer))]);
            var free := d in s.c.own.residents ==> s.c.own.residents[d].claim.None?;
      && ThreadOf(n, tid) == Claimed(ThreadOf(s, tid).attempt,
                                     if answer.Granted? && free then Some(s.nextId + 1) else None)
      && n.pool == if answer.Granted? && free then s.pool + {s.nextId + 1} else s.pool
  {
    var a, b := Timed(now, ReadGuard(tid)), Timed(now, TakeClaim(tid, answer));
    RunMore(s, flags, [], a);
    RunMore(s, flags, [a], b);
    assert [] + [a] == [a] && [a] + [b] == [a, b];
    hide Run;
  }

  // No turn is kept for a device while a projection is under way

  predicate NoTurnWhileProjecting(c: Coordinator) {
    Projecting(c) ==> c.queue.reserved.None? && c.queue.handoff.None?
  }

  /** Stages only end, and turns are only dropped. */
  predicate Winds(c: Coordinator, c': Coordinator) {
    && (forall d <- c'.own.leases :: d in c.own.leases && c'.own.leases[d] == c.own.leases[d])
    && c'.queue.reserved in {None, c.queue.reserved} && c'.queue.handoff in {None, c.queue.handoff}
  }

  lemma {:induction false} WindsKeep(c: Coordinator, c': Coordinator)
    requires NoTurnWhileProjecting(c) && Winds(c, c')
    ensures NoTurnWhileProjecting(c')
  {
    if d :| d in c'.own.leases && c'.own.leases[d].kind == SourceProjection {
      assert c.own.leases[d].kind == SourceProjection;
    }
  }

  lemma {:induction false} RefreshWinds(c: Coordinator, flags: Flags, now: int)
    ensures Winds(c, Refresh(c, flags, now)) && Refresh(c, flags, now).own == c.own
  {
    hide LiveRequests, NextRequest;
  }

  lemma {:induction false} EligibleWinds(c: Coordinator, flags: Flags, d: int, purpose: Purpose,
        reservation: Option<nat>, resident: Option<nat>, now: int)
    ensures Winds(c, StageEligible(c, flags, d, purpose, reservation, resident, now).1)
    ensures StageEligible(c, flags, d, purpose, reservation, resident, now).1.own == c.own
  {
    RefreshWinds(c, flags, now);
    hide Refresh, NextRequest, Projecting;
  }

  lemma {:induction false} TurnKeeps(c: Coordinator, flags: Flags, candidates: seq<int>, purpose: Purpose, now: int)
    requires NoTurnWhileProjecting(c)
    ensures NoTurnWhileProjecting(RequestTurn(c, flags, candidates, purpose, now))
  {
    RefreshWinds(c, flags, now);
    WindsKeep(c, Refresh(c, flags, now));
    hide Refresh, PutRequest, Select, Position, LeastLoaded, DrainCandidates, Available;
  }

  lemma {:induction false} CommitKeepsTurns(c: Coordinator, flags: Flags, a: Attempt, claim: Option<nat>, token: nat,
        now: int)
    requires NoTurnWhileProjecting(c)
    ensures NoTurnWhileProjecting(CommitStage(c, flags, a.device, a.purpose, a.epoch, a.resident, a.reservation, claim,
                                              token, now).1)
  {
    hide StageEligible, DropRequest;
    EligibleWinds(c, flags, a.device, a.purpose, Some(a.reservation), a.resident, now);
    var (ok, c1) := StageEligible(c, flags, a.device, a.purpose, Some(a.reservation), a.resident, now);
    WindsKeep(c, c1);
    if a.purpose.kind != SourceProjection {
      LeasedProjects(c1, a.device, a.purpose, token, claim);
    }
  }

  lemma {:induction false} LeasedProjects(c: Coordinator, d: int, purpose: Purpose, token: nat, claim: Option<nat>)
    requires purpose.kind != SourceProjection
    ensures Projecting(Leased(c, d, purpose, token, claim)) ==> Projecting(c)
  {
    if w :| w in Leased(c, d, purpose, token, claim).own.leases
            && Leased(c, d, purpose, token, claim).own.leases[w].kind == SourceProjection {
      assert w in c.own.leases;
    }
  }

  lemma {:induction false} ReleaseKeepsTurns(c: Coordinator, flags: Flags, d: int, purpose: Purpose, token: nat,
        now: int)
    requires NoTurnWhileProjecting(c)
    ensures NoTurnWhileProjecting(ReleaseStage(c, flags, d, purpose, token, now).1)
  {
    RefreshWinds(Unleased(c, d), flags, now);
    WindsKeep(c, Unleased(c, d));
    WindsKeep(Unleased(c, d), Refresh(Unleased(c, d), flags, now));
    SameProjecting(Refresh(Unleased(c, d), flags, now), d, now);
    hide Refresh, NextRequest, Projecting;
  }

  lemma {:induction false} SameProjecting(c: Coordinator, d: int, now: int)
    ensures Projecting(HandedOver(c, d, now)) <==> Projecting(c)
  {
  }

  lemma {:induction false} BeginKeepsTurns(c: Coordinator, flags: Flags, d: int, now: int)
    requires NoTurnWhileProjecting(c)
    ensures NoTurnWhileProjecting(BeginInference(c, flags, d, now).1)
  {
    RefreshWinds(c, flags, now);
    hide Refresh;
    WindsKeep(c, BeginInference(c, flags, d, now).1);
  }

  lemma {:induction false} ClearingWinds(c: Coordinator, flags: Flags, purpose: Purpose, failed: bool, active: bool,
        now: int)
    ensures Winds(c, Cancel(c, flags, purpose, failed, now)) && Winds(c, SetPressure(c, flags, active, now))
    ensures Winds(c, FailedProbe(c, now))
  {
    RefreshWinds(c.(queue := c.queue.(requests := if failed then [] else DropRequest(c.queue.requests, purpose),
                                      retryAfter := if failed then now + COOLDOWN
                                          else c.queue.retryAfter)), flags, now);
    RefreshWinds(c.(pressure := active), flags, now);
    hide Refresh, DropRequest;
  }

  lemma {:induction false} StepKeepsTurns(s: System, flags: Flags, now: int, e: Event)
    requires NoTurnWhileProjecting(s.c)
    ensures NoTurnWhileProjecting(Step(s, flags, now, e).c)
  {
    hide NoTurnWhileProjecting, Winds, RequestTurn, CommitStage, ReleaseStage, BeginInference, Reserve, Cancel,
      SetPressure, FailedProbe, Smallest;
    match e
    case Turn(candidates, purpose) => TurnKeeps(s.c, flags, candidates, purpose, now);
    case Commit(tid) =>
      var t := ThreadOf(s, tid);
      if t.Claimed? {
        CommitKeepsTurns(s.c, flags, t.attempt, t.claim, s.nextId, now);
      }
    case Release(_, d, purpose, token) => ReleaseKeepsTurns(s.c, flags, d, purpose, token, now);
    case Begin(d) => BeginKeepsTurns(s.c, flags, d, now);
    case _ =>
      OtherStepWinds(s, flags, now, e);
      WindsKeep(s.c, Step(s, flags, now, e).c);
  }

  lemma {:induction false} ClearingStepWinds(s: System, flags: Flags, now: int, e: Event)
    requires e.CancelTurn? || e.Pressure? || e.ProbeFails? || e.ReserveStage?
    ensures Winds(s.c, Step(s, flags, now, e).c)
  {
    hide Winds, Cancel, SetPressure, FailedProbe, Reserve;
    WindsStays(s.c);
    match e
    case CancelTurn(purpose, failed) => ClearingWinds(s.c, flags, purpose, failed, true, now);
    case Pressure(active) => ClearingWinds(s.c, flags, Purpose(Other, 0), true, active, now);
    case ProbeFails(_) => ClearingWinds(s.c, flags, Purpose(Other, 0), true, true, now);
    case ReserveStage(_, d, purpose, epoch, resident) =>
      ReserveWinds(s.c, flags, d, purpose, epoch, resident, s.nextId, now);
  }

  lemma {:induction false} WindsStays(c: Coordinator)
    ensures Winds(c, c)
  {
  }

  lemma {:induction false} ReserveWinds(c: Coordinator, flags: Flags, d: int, purpose: Purpose, epoch: nat,
        resident: Option<nat>, reservation: nat, now: int)
    ensures Winds(c, Reserve(c, flags, d, purpose, epoch, resident, reservation, now).1)
  {
    hide StageEligible;
    EligibleWinds(c, flags, d, purpose, None, resident, now);
  }

  lemma {:induction false} OtherStepWinds(s: System, flags: Flags, now: int, e: Event)
    requires !e.Turn? && !e.Commit? && !e.Release? && !e.Begin?
    ensures Winds(s.c, Step(s, flags, now, e).c)
  {
    hide Step;
    if e.CancelTurn? || e.Pressure? || e.ProbeFails? || e.ReserveStage? {
      ClearingStepWinds(s, flags, now, e);
    } else {
      OthersInstallNothing(s, flags, now, e);
      QueueStays(s, flags, now, e);
    }
  }

  lemma {:induction false} OwnersKeepQueue(c: Coordinator, d: int, token: nat)
    ensures Quarantine(c, d, token).queue == c.queue && ReleaseResidency(c, d, token).1.queue == c.queue
    ensures PopReservation(c, d, token).queue == c.queue
  {
  }

  lemma {:induction false} PromoteKeepsQueue(c: Coordinator, d: int, purpose: Purpose, token: nat, owner: nat)
    ensures Promote(c, d, purpose, token, owner).queue == c.queue
  {
    hide CanPromote, ClaimAt;
  }

  lemma {:induction false} CountsKeepQueue(c: Coordinator, d: int, task: nat, proofEpoch: nat)
    ensures MarkRetired(c, d, task, proofEpoch).queue == c.queue && FinishInference(c, d).queue == c.queue
  {
    hide CanRetire, Fewer;
  }

  lemma {:induction false} QueueStays(s: System, flags: Flags, now: int, e: Event)
    requires !e.Turn? && !e.Commit? && !e.Release? && !e.Begin?
    requires !e.CancelTurn? && !e.Pressure? && !e.ProbeFails? && !e.ReserveStage?
    ensures Step(s, flags, now, e).c.queue in {s.c.queue, Unasked}
  {
    hide Promote, Quarantine, ReleaseResidency, PopReservation, MarkRetired, FinishInference, Smallest, StageClaims;
    match e
    case PromoteStage(d, purpose, token) => PromoteKeepsQueue(s.c, d, purpose, token, s.nextId);
    case QuarantineOwner(d, token) => OwnersKeepQueue(s.c, d, token);
    case ReleaseOwner(_, d, token) => OwnersKeepQueue(s.c, d, token);
    case Retire(d, task, proofEpoch) => CountsKeepQueue(s.c, d, task, proofEpoch);
    case Finish(d) => CountsKeepQueue(s.c, d, 0, 0);
    case Leave(tid) =>
      var t := ThreadOf(s, tid);
      if t.Leaving? {
        OwnersKeepQueue(s.c, t.device, t.reservation);
      }
    case _ =>
  }

  /** In every reachable state in which a projection holds a device, no turn is reserved and none handed over. */
  lemma {:induction false} ProjectionEndsTurn(flags: Flags, es: seq<Timed>)
    ensures var c := Run(Start, flags, es).c;
      (exists d <- c.own.leases :: c.own.leases[d].kind == SourceProjection) ==>
        c.queue.reserved.None? && c.queue.handoff.None?
  {
    TurnsEnd(flags, es);
    hide Run;
  }

  lemma {:induction false} TurnsEnd(flags: Flags, es: seq<Timed>)
    ensures NoTurnWhileProjecting(Run(Start, flags, es).c)
  {
    if es != [] {
      TurnsEnd(flags, es[..|es| - 1]);
      hide Step, NoTurnWhileProjecting;
      StepKeepsTurns(Run(Start, flags, es[..|es| - 1]), flags, es[|es| - 1].now, es[|es| - 1].e);
    }
  }
}
