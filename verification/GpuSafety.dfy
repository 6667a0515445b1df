/** What every step of the coordinator keeps, and what therefore holds in every reachable state. */
module GpuSafety {
  import opened Options
  import opened GpuStages
  import opened GpuClaims

  // ----- one section at a time -----

  /** Everything but the turn queue and its counters is as before. */
  ghost predicate SameOwners(c: Coordinator, c': Coordinator) {
    && c'.workers == c.workers && c'.inflight == c.inflight && c'.own == c.own && c'.epoch == c.epoch
    && c'.retired == c.retired && c'.backlog == c.backlog && c'.retiring == c.retiring
  }

  ghost predicate NoFewer(m: map<int, nat>, m': map<int, nat>) {
    forall d: int :: Count(m, d) <= Count(m', d)
  }

  /** A turn is reserved only on a device that has one left, and a handoff is a reservation. */
  ghost predicate TurnLeft(c: Coordinator) {
    && (c.queue.reserved.Some? ==> Count(c.queue.burst, c.queue.reserved.value) < TURNS)
    && (c.queue.handoff.Some? ==> c.queue.handoff == c.queue.reserved)
  }

  ghost predicate QueueMove(c: Coordinator, c': Coordinator) {
    SameOwners(c, c') && NoFewer(c.queue.burst, c'.queue.burst) && (TurnLeft(c) ==> TurnLeft(c'))
  }

  lemma {:induction false} RefreshMoves(c: Coordinator, flags: Flags, now: int)
    ensures QueueMove(c, Refresh(c, flags, now))
    ensures Refresh(c, flags, now).queue.reserved in {None, c.queue.reserved}
  {
    hide LiveRequests, NextRequest;
  }

  lemma {:induction false} RequestTurnMoves(c: Coordinator, flags: Flags, candidates: seq<int>, purpose: Purpose,
        now: int)
    ensures QueueMove(c, RequestTurn(c, flags, candidates, purpose, now))
  {
    RefreshMoves(c, flags, now);
    assert QueueMove(c, c);
    hide Refresh, PutRequest, Select, Projecting, Position, LeastLoaded, DrainCandidates, Available, QueueMove;
    var c1 := Refresh(c, flags, now);
    var c2 := c1.(queue := c1.queue.(requests :=
        PutRequest(c1.queue.requests, purpose, Select(candidates, c1.workers), now)));
    QueueMoveTwice(c, c1, c2);
    var choice := DrainCandidates(c2, flags, c2.queue.requests, Available(c2), now);
    if choice != [] && c2.queue.reserved.None? {
      assert choice[0] in choice;
      AvailableAreWorkers(c2);
      TakeTurnMoves(c2, choice);
      QueueMoveTwice(c, c2, TakeTurn(c2, LeastLoaded(c2, choice)));
    }
  }

  lemma {:induction false} AvailableAreWorkers(c: Coordinator)
    ensures Available(c) <= c.workers
  {
  }

  lemma {:induction false} TakeTurnMoves(c: Coordinator, choice: seq<int>)
    requires c.workers != {} && c.queue.reserved.None?
    requires choice != [] && forall d <- choice :: d in Available(c)
    ensures QueueMove(c, TakeTurn(c, LeastLoaded(c, choice)))
  {
    hide LeastLoaded, Position;
    assert LeastLoaded(c, choice) in choice;
  }

  lemma {:induction false} QueueMoveTwice(c: Coordinator, c1: Coordinator, c2: Coordinator)
    requires QueueMove(c, c1)
    ensures QueueMove(c1, c2) || c2 == c1.(queue := c1.queue.(requests := c2.queue.requests)) ==> QueueMove(c, c2)
  {
  }

  lemma {:induction false} StageEligibleMoves(c: Coordinator, flags: Flags, d: int, purpose: Purpose,
        reservation: Option<nat>, resident: Option<nat>, now: int)
    ensures var (ok, c') := StageEligible(c, flags, d, purpose, reservation, resident, now);
            && QueueMove(c, c')
            && (ok ==> Unclaimed(c, d, reservation) && Count(c.inflight, d) == 0
                       && ResidentAllows(c, d, purpose, resident))
            && (ok && purpose.kind == SourceProjection && resident.None? && c.backlog && d in c.workers ==>
                  c'.queue.reserved == Some(d))
  {
    RefreshMoves(c, flags, now);
    hide Refresh, NextRequest, Projecting;
  }

  // ----- the coordinator's own invariant -----

  ghost predicate Exclusive(c: Coordinator) {
    forall d <- c.inflight ::
      c.inflight[d] > 0 && d !in c.own.leases && d !in c.own.provisional && d !in c.own.residents && d !in c.retired
  }

  ghost predicate Paired(c: Coordinator) {
    c.own.leases.Keys == c.own.tokens.Keys && c.own.claims.Keys <= c.own.leases.Keys
  }

  ghost predicate Sound(c: Coordinator) {
    Exclusive(c) && Paired(c) && TurnLeft(c)
  }

  lemma {:induction false} BeginSound(c: Coordinator, flags: Flags, d: int, now: int)
    requires Sound(c)
    ensures Sound(BeginInference(c, flags, d, now).1)
    ensures BeginInference(c, flags, d, now).0 ==>
              BeginInference(c, flags, d, now).1.inflight == c.inflight[d := Count(c.inflight, d) + 1]
    ensures !BeginInference(c, flags, d, now).0 ==> QueueMove(c, BeginInference(c, flags, d, now).1)
  {
    RefreshMoves(c, flags, now);
    hide Refresh;
  }

  lemma {:induction false} ReserveSound(c: Coordinator, flags: Flags, d: int, purpose: Purpose, epoch: nat,
        resident: Option<nat>, reservation: nat, now: int)
    requires Sound(c)
    ensures Sound(Reserve(c, flags, d, purpose, epoch, resident, reservation, now).1)
  {
    StageEligibleMoves(c, flags, d, purpose, None, resident, now);
    hide StageEligible;
  }

  lemma {:induction false} CommitSound(c: Coordinator, flags: Flags, d: int, purpose: Purpose, epoch: nat,
        resident: Option<nat>, reservation: nat, claim: Option<nat>, token: nat, now: int)
    requires Sound(c)
    ensures Sound(CommitStage(c, flags, d, purpose, epoch, resident, reservation, claim, token, now).1)
  {
    StageEligibleMoves(c, flags, d, purpose, Some(reservation), resident, now);
    hide StageEligible, DropRequest;
  }

  lemma {:induction false} ReleaseSound(c: Coordinator, flags: Flags, d: int, purpose: Purpose, token: nat, now: int)
    requires Sound(c)
    ensures Sound(ReleaseStage(c, flags, d, purpose, token, now).1)
    ensures HoldsStage(c, d, purpose, token) ==>
              var (claim, c') := ReleaseStage(c, flags, d, purpose, token, now);
              && claim == ClaimAt(c.own.claims, d)
              && c'.own.leases == c.own.leases - {d} && c'.own.tokens == c.own.tokens - {d}
                  && c'.own.claims == c.own.claims - {d}
              && c'.own.residents == c.own.residents
  {
    RefreshMoves(Unleased(c, d), flags, now);
    hide Refresh, NextRequest, Projecting;
  }

  lemma {:induction false} MovesSound(c: Coordinator, c': Coordinator)
    requires Sound(c) && QueueMove(c, c')
    ensures Sound(c')
  {
  }

  lemma {:induction false} SwitchesSound(c: Coordinator, requests: seq<Request>, retryAfter: int, pressure: bool,
        backlog: bool, retiring: bool, priority: bool)
    requires Sound(c)
    ensures Sound(c.(queue := c.queue.(requests := requests, retryAfter := retryAfter)))
    ensures Sound(c.(pressure := pressure)) && Sound(c.(backlog := backlog))
    ensures Sound(c.(retiring := retiring)) && Sound(c.(priority := priority))
    ensures Sound(ClearTurn(c.(queue := c.queue.(requests := requests, retryAfter := retryAfter))))
  {
  }

  lemma {:induction false} QueueStepSound(s: System, flags: Flags, now: int, e: Event)
    requires Sound(s.c) && (e.Turn? || e.CancelTurn? || e.Pressure? || e.Backlog? || e.Priority? || e.Retiring?
             || e.ProbeFails?)
    ensures Sound(Step(s, flags, now, e).c)
  {
    hide Refresh, RequestTurn, DropRequest, Sound, QueueMove, ClearTurn;
    match e
    case Turn(candidates, purpose) =>
      RequestTurnMoves(s.c, flags, candidates, purpose, now);
      MovesSound(s.c, RequestTurn(s.c, flags, candidates, purpose, now));
    case CancelTurn(purpose, failed) =>
      var requests := if failed then [] else DropRequest(s.c.queue.requests, purpose);
      var retryAfter := if failed then now + COOLDOWN else s.c.queue.retryAfter;
      SwitchesSound(s.c, requests, retryAfter, true, true, true, true);
      var c := s.c.(queue := s.c.queue.(requests := requests, retryAfter := retryAfter));
      RefreshMoves(c, flags, now);
      MovesSound(c, Refresh(c, flags, now));
    case Pressure(active) =>
      SwitchesSound(s.c, [], 0, active, true, true, true);
      RefreshMoves(s.c.(pressure := active), flags, now);
      MovesSound(s.c.(pressure := active), Refresh(s.c.(pressure := active), flags, now));
    case Backlog(active) => SwitchesSound(s.c, [], 0, true, active, true, true);
    case Retiring(active) => SwitchesSound(s.c, [], 0, true, true, active, true);
    case Priority(active) => SwitchesSound(s.c, [], 0, true, true, true, active && s.c.workers != {});
    case ProbeFails(_) => SwitchesSound(s.c, [], now + COOLDOWN, true, true, true, true);
  }

  lemma {:induction false} OwnershipSound(c: Coordinator, d: int, purpose: Purpose, token: nat, residentToken: nat)
    requires Sound(c)
    ensures Sound(Promote(c, d, purpose, token, residentToken))
    ensures Sound(Quarantine(c, d, token)) && Sound(ReleaseResidency(c, d, token).1)
  {
    hide Quarantine, ReleaseResidency;
    ResidencySound(c, d, token);
  }

  lemma {:induction false} ResidencySound(c: Coordinator, d: int, token: nat)
    requires Sound(c)
    ensures Sound(Quarantine(c, d, token)) && Sound(ReleaseResidency(c, d, token).1)
  {
  }

  lemma {:induction false} RunSound(c: Coordinator, d: int, task: nat, proofEpoch: nat, workers: set<int>)
    requires Sound(c)
    ensures Sound(FinishInference(c, d)) && Sound(MarkRetired(c, d, task, proofEpoch)) && Sound(Configure(c, workers))
  {
  }

  lemma {:induction false} OwnerStepSound(s: System, flags: Flags, now: int, e: Event)
    requires Sound(s.c) && (e.PromoteStage? || e.QuarantineOwner? || e.ReleaseOwner? || e.Retire? || e.Reconfigure?
             || e.Finish?)
    ensures Sound(Step(s, flags, now, e).c)
  {
    hide Sound, Promote, Quarantine, ReleaseResidency, FinishInference, MarkRetired, Configure;
    match e
    case PromoteStage(d, purpose, token) => OwnershipSound(s.c, d, purpose, token, s.nextId);
    case QuarantineOwner(d, token) => OwnershipSound(s.c, d, Purpose(Other, 0), token, 0);
    case ReleaseOwner(_, d, token) => OwnershipSound(s.c, d, Purpose(Other, 0), token, 0);
    case Retire(d, task, proofEpoch) => RunSound(s.c, d, task, proofEpoch, {});
    case Reconfigure(_, workers) => RunSound(s.c, 0, 0, 0, workers);
    case Finish(d) => RunSound(s.c, d, 0, 0, {});
  }

  lemma {:induction false} LeaveSound(c: Coordinator)
    requires Sound(c)
    ensures forall d, reservation :: Sound(PopReservation(c, d, reservation))
  {
  }

  lemma {:induction false} ClaimStepSound(s: System, flags: Flags, now: int, e: Event)
    requires Sound(s.c) && (e.ReserveStage? || e.ReadGuard? || e.TakeClaim? || e.Commit? || e.DropClaim? || e.Leave?
             || e.Release?)
    ensures Sound(Step(s, flags, now, e).c)
  {
    hide Reserve, CommitStage, ReleaseStage, Smallest, Sound;
    LeaveSound(s.c);
    match e
    case ReserveStage(_, d, purpose, epoch, resident) => ReserveSound(s.c, flags, d, purpose, epoch, resident,
        s.nextId, now);
    case Commit(tid) =>
      var t := ThreadOf(s, tid);
      if t.Claimed? {
        var a := t.attempt;
        CommitSound(s.c, flags, a.device, a.purpose, a.epoch, a.resident, a.reservation, t.claim, s.nextId, now);
      }
    case Release(_, d, purpose, token) => ReleaseSound(s.c, flags, d, purpose, token, now);
    case _ =>
  }

  /** Every lock section of every step keeps the coordinator sound. */
  lemma {:induction false} StepSound(s: System, flags: Flags, now: int, e: Event)
    requires Sound(s.c)
    ensures Sound(Step(s, flags, now, e).c)
  {
    hide Step, Sound;
    match e
    case Begin(d) => BeginStepSound(s, flags, now, d);
    case Turn(_, _) => QueueStepSound(s, flags, now, e);
    case CancelTurn(_, _) => QueueStepSound(s, flags, now, e);
    case Pressure(_) => QueueStepSound(s, flags, now, e);
    case Backlog(_) => QueueStepSound(s, flags, now, e);
    case Priority(_) => QueueStepSound(s, flags, now, e);
    case Retiring(_) => QueueStepSound(s, flags, now, e);
    case ProbeFails(_) => QueueStepSound(s, flags, now, e);
    case PromoteStage(_, _, _) => OwnerStepSound(s, flags, now, e);
    case QuarantineOwner(_, _) => OwnerStepSound(s, flags, now, e);
    case ReleaseOwner(_, _, _) => OwnerStepSound(s, flags, now, e);
    case Retire(_, _, _) => OwnerStepSound(s, flags, now, e);
    case Reconfigure(_, _) => OwnerStepSound(s, flags, now, e);
    case Finish(_) => OwnerStepSound(s, flags, now, e);
    case _ => ClaimStepSound(s, flags, now, e);
  }

  lemma {:induction false} BeginStepSound(s: System, flags: Flags, now: int, d: int)
    requires Sound(s.c)
    ensures Sound(Step(s, flags, now, Begin(d)).c)
  {
    BeginSound(s.c, flags, d, now);
    hide BeginInference;
  }
}
