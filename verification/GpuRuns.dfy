/** The guarantees of the coordinator over whole runs, whatever the interleaving. */
module GpuRuns {
  import opened Options
  import opened GpuStages
  import opened GpuClaims
  import opened GpuSafety
  import opened GpuAccounts

  datatype Timed = Timed(now: int, e: Event)

  function Run(s: System, flags: Flags, es: seq<Timed>): System {
    if es == [] then s
    else
      var last := es[|es| - 1];
      Step(Run(s, flags, es[..|es| - 1]), flags, last.now, last.e)
  }

  // ----- bounded retirement bursts -----

  /** Queue-admitted projections since the last dispatch never outnumber the burst counter or the turns. */
  ghost predicate TurnsBounded(s: System) {
    forall d: int :: Count(s.projections, d) <= TURNS && Count(s.projections, d) <= Count(s.c.queue.burst, d)
  }

  /** A lock section that neither dispatches nor reconfigures: dispatch counts stay, burst
      counters only grow, and a stage token stays, goes, or is the fresh one. */
  ghost predicate Section(c: Coordinator, c': Coordinator, token: nat) {
    && c'.inflight == c.inflight
    && NoFewer(c.queue.burst, c'.queue.burst)
    && (forall d <- c'.own.tokens ::
          (d in c.own.tokens && c'.own.tokens[d] == c.own.tokens[d]) || c'.own.tokens[d] == token)
  }

  lemma {:induction false} MoveIsSection(c: Coordinator, c': Coordinator, token: nat)
    requires QueueMove(c, c')
    ensures Section(c, c', token)
  {
  }

  lemma {:induction false} CancelSection(c: Coordinator, flags: Flags, purpose: Purpose, failed: bool, now: int,
        token: nat)
    ensures Section(c, Cancel(c, flags, purpose, failed, now), token)
  {
    var c1 := c.(queue := c.queue.(requests := if failed then [] else DropRequest(c.queue.requests, purpose),
                                   retryAfter := if failed then now + COOLDOWN else c.queue.retryAfter));
    RefreshMoves(c1, flags, now);
    hide Refresh, DropRequest, TurnLeft;
  }

  lemma {:induction false} PressureSection(c: Coordinator, flags: Flags, active: bool, now: int, token: nat)
    ensures Section(c, SetPressure(c, flags, active, now), token)
  {
    RefreshMoves(c.(pressure := active), flags, now);
    hide Refresh, TurnLeft;
  }

  lemma {:induction false} ReserveSection(c: Coordinator, flags: Flags, d: int, purpose: Purpose, epoch: nat,
        resident: Option<nat>, reservation: nat, now: int)
    ensures Section(c, Reserve(c, flags, d, purpose, epoch, resident, reservation, now).1, reservation)
  {
    StageEligibleMoves(c, flags, d, purpose, None, resident, now);
    hide StageEligible, TurnLeft;
  }

  lemma {:induction false} CommitSection(c: Coordinator, flags: Flags, d: int, purpose: Purpose, epoch: nat,
        resident: Option<nat>, reservation: nat, claim: Option<nat>, token: nat, now: int)
    ensures Section(c, CommitStage(c, flags, d, purpose, epoch, resident, reservation, claim, token, now).1, token)
  {
    StageEligibleMoves(c, flags, d, purpose, Some(reservation), resident, now);
    hide StageEligible, DropRequest, TurnLeft;
  }

  lemma {:induction false} ReleaseSection(c: Coordinator, flags: Flags, d: int, purpose: Purpose, token: nat,
        now: int, next: nat)
    ensures Section(c, ReleaseStage(c, flags, d, purpose, token, now).1, next)
  {
    RefreshMoves(Unleased(c, d), flags, now);
    hide Refresh, TurnLeft, Projecting, NextRequest;
  }

  lemma {:induction false} OwnerSections(c: Coordinator, d: int, purpose: Purpose, token: nat, now: int, next: nat)
    ensures Section(c, Promote(c, d, purpose, token, next), next)
    ensures Section(c, Quarantine(c, d, token), next) && Section(c, ReleaseResidency(c, d, token).1, next)
    ensures Section(c, PopReservation(c, d, token), next) && Section(c, FailedProbe(c, now), next)
  {
    hide Section, Promote, FailedProbe;
    ProbeSection(c, now, next);
    PromoteSection(c, d, purpose, token, next);
    QuietSection(c, Quarantine(c, d, token), next);
    QuietSection(c, ReleaseResidency(c, d, token).1, next);
    QuietSection(c, PopReservation(c, d, token), next);
  }

  lemma {:induction false} ProbeSection(c: Coordinator, now: int, next: nat)
    ensures Section(c, FailedProbe(c, now), next)
  {
    hide Section;
    QuietSection(c, FailedProbe(c, now), next);
  }

  lemma {:induction false} PromoteSection(c: Coordinator, d: int, purpose: Purpose, token: nat, next: nat)
    ensures Section(c, Promote(c, d, purpose, token, next), next)
  {
    hide CanPromote, ClaimAt;
  }

  lemma {:induction false} QuietSection(c: Coordinator, c': Coordinator, next: nat)
    requires c'.inflight == c.inflight && c'.queue.burst == c.queue.burst && c'.own.tokens == c.own.tokens
    ensures Section(c, c', next)
  {
  }

  lemma {:induction false} SwitchSections(c: Coordinator, d: int, task: nat, proofEpoch: nat, active: bool, next: nat)
    ensures Section(c, MarkRetired(c, d, task, proofEpoch), next) && Section(c, SetBacklog(c, active), next)
    ensures Section(c, SetPriority(c, active), next) && Section(c, SetRetiring(c, active), next) && Section(c, c, next)
  {
    hide CanRetire;
  }

  lemma {:induction false} StepIsSection(s: System, flags: Flags, now: int, e: Event)
    requires !e.Begin? && !e.Finish? && !e.Reconfigure?
    ensures Section(s.c, Step(s, flags, now, e).c, s.nextId)
  {
    hide Section, RequestTurn, Cancel, SetPressure, Reserve, CommitStage, ReleaseStage, Promote, Quarantine,
        ReleaseResidency,
      PopReservation, FailedProbe, MarkRetired, SetBacklog, SetPriority, SetRetiring, Smallest, QueueMove;
    SwitchSections(s.c, 0, 0, 0, true, s.nextId);
    match e
    case Turn(candidates, purpose) =>
      RequestTurnMoves(s.c, flags, candidates, purpose, now);
      MoveIsSection(s.c, RequestTurn(s.c, flags, candidates, purpose, now), s.nextId);
    case CancelTurn(purpose, failed) => CancelSection(s.c, flags, purpose, failed, now, s.nextId);
    case Pressure(active) => PressureSection(s.c, flags, active, now, s.nextId);
    case Retire(d, task, proofEpoch) => SwitchSections(s.c, d, task, proofEpoch, true, s.nextId);
    case Backlog(active) => SwitchSections(s.c, 0, 0, 0, active, s.nextId);
    case Priority(active) => SwitchSections(s.c, 0, 0, 0, active, s.nextId);
    case Retiring(active) => SwitchSections(s.c, 0, 0, 0, active, s.nextId);
    case ReserveStage(_, d, purpose, epoch, resident) => ReserveSection(s.c, flags, d, purpose, epoch, resident,
        s.nextId, now);
    case ProbeFails(_) => OwnerSections(s.c, 0, Purpose(Other, 0), 0, now, s.nextId);
    case Commit(tid) =>
      var t := ThreadOf(s, tid);
      if t.Claimed? {
        var a := t.attempt;
        CommitSection(s.c, flags, a.device, a.purpose, a.epoch, a.resident, a.reservation, t.claim, s.nextId, now);
      }
    case Leave(tid) =>
      var t := ThreadOf(s, tid);
      if t.Leaving? {
        OwnerSections(s.c, t.device, Purpose(Other, 0), t.reservation, now, s.nextId);
      }
    case Release(_, d, purpose, token) => ReleaseSection(s.c, flags, d, purpose, token, now, s.nextId);
    case PromoteStage(d, purpose, token) => OwnerSections(s.c, d, purpose, token, now, s.nextId);
    case QuarantineOwner(d, token) => OwnerSections(s.c, d, Purpose(Other, 0), token, now, s.nextId);
    case ReleaseOwner(_, d, token) => OwnerSections(s.c, d, Purpose(Other, 0), token, now, s.nextId);
    case _ =>
  }

  lemma {:induction false} BurstGrows(s: System, flags: Flags, now: int, e: Event)
    requires !e.Begin? && !e.Reconfigure?
    ensures NoFewer(s.c.queue.burst, Step(s, flags, now, e).c.queue.burst)
  {
    if !e.Finish? {
      StepIsSection(s, flags, now, e);
      hide Step;
    }
  }

  /** An admission by the queue uses up a turn that the device still had. */
  lemma {:induction false} CommitUsesTurn(c: Coordinator, flags: Flags, d: int, purpose: Purpose, epoch: nat,
        reservation: nat, claim: Option<nat>, token: nat, now: int)
    requires TurnLeft(c) && purpose.kind == SourceProjection && c.backlog && d in c.workers
    ensures var (ok, c') := CommitStage(c, flags, d, purpose, epoch, None, reservation, claim, token, now);
            ok ==> Count(c.queue.burst, d) < TURNS && Count(c.queue.burst, d) < Count(c'.queue.burst, d)
  {
    StageEligibleMoves(c, flags, d, purpose, Some(reservation), None, now);
    hide StageEligible, DropRequest;
  }

  lemma {:induction false} CommitTurns(s: System, flags: Flags, now: int, tid: nat)
    requires TurnsBounded(s) && Sound(s.c)
    ensures TurnsBounded(Step(s, flags, now, Commit(tid)))
  {
    hide CommitStage, Sound;
    BurstGrows(s, flags, now, Commit(tid));
    var t := ThreadOf(s, tid);
    if t.Claimed? {
      var a := t.attempt;
      if a.resident.None? && a.purpose.kind == SourceProjection && s.c.backlog && a.device in s.c.workers {
        SoundLeavesTurn(s.c);
        CommitUsesTurn(s.c, flags, a.device, a.purpose, a.epoch, a.reservation, t.claim, s.nextId, now);
      }
    }
  }

  lemma {:induction false} SoundLeavesTurn(c: Coordinator)
    requires Sound(c)
    ensures TurnLeft(c)
  {
  }

  lemma {:induction false} ReconfigureTurns(s: System, flags: Flags, now: int, tid: nat, workers: set<int>)
    requires TurnsBounded(s)
    ensures TurnsBounded(Step(s, flags, now, Reconfigure(tid, workers)))
  {
  }

  lemma {:induction false} StepTurns(s: System, flags: Flags, now: int, e: Event)
    requires TurnsBounded(s) && Sound(s.c)
    ensures TurnsBounded(Step(s, flags, now, e))
  {
    hide Step, Sound;
    if e.Begin? {
      BeginTurns(s, flags, now, e.d);
    } else if e.Commit? {
      CommitTurns(s, flags, now, e.tid);
    } else if e.Reconfigure? {
      ReconfigureTurns(s, flags, now, e.tid, e.workers);
    } else {
      BurstGrows(s, flags, now, e);
      ProjectionsStay(s, flags, now, e);
    }
  }

  lemma {:induction false} ProjectionsStay(s: System, flags: Flags, now: int, e: Event)
    requires !e.Begin? && !e.Commit? && !e.Reconfigure?
    ensures Step(s, flags, now, e).projections == s.projections
  {
    hide Reserve, ReleaseStage, Smallest, RequestTurn, Cancel, SetPressure, FinishInference;
  }

  lemma {:induction false} BeginTurns(s: System, flags: Flags, now: int, d: int)
    requires TurnsBounded(s)
    ensures TurnsBounded(Step(s, flags, now, Begin(d)))
  {
    RefreshMoves(s.c, flags, now);
    var s' := Step(s, flags, now, Begin(d));
    var burst := Refresh(s.c, flags, now).queue.burst;
    hide Refresh, SameOwners, TurnLeft;
    forall x: int
      ensures Count(s'.projections, x) <= TURNS && Count(s'.projections, x) <= Count(s'.c.queue.burst, x)
    {
      assert Count(s.projections, x) <= Count(s.c.queue.burst, x) <= Count(burst, x);
    }
  }

  ghost predicate Inv(s: System) {
    Sound(s.c) && Accounted(s) && TurnsBounded(s)
  }

  lemma {:induction false} Reachable(flags: Flags, es: seq<Timed>)
    ensures Inv(Run(Start, flags, es))
  {
    if es == [] {
      assert forall h: Holder :: ClaimsOf(Start, h) == {};
    } else {
      var init, last := es[..|es| - 1], es[|es| - 1];
      Reachable(flags, init);
      var s := Run(Start, flags, init);
      hide Step, Sound, Accounted, TurnsBounded;
      StepSound(s, flags, last.now, last.e);
      StepAccounted(s, flags, last.now, last.e);
      StepTurns(s, flags, last.now, last.e);
    }
  }

  /** In every reachable state, a device with inference in flight has no stage lease, no
      reservation, no resident owner and is not retired; leases and tokens come in pairs. */
  lemma {:induction false} DevicesAreExclusive(flags: Flags, es: seq<Timed>, d: int)
    ensures var c := Run(Start, flags, es).c;
            && (Count(c.inflight, d) > 0 ==>
                  d !in c.own.leases && d !in c.own.provisional && d !in c.own.residents && d !in c.retired)
            && (d in c.own.leases <==> d in c.own.tokens)
            && (d in c.own.claims ==> d in c.own.leases)
  {
    Reachable(flags, es);
    hide Run, Accounted, TurnsBounded, TurnLeft;
  }

  /** Every auxiliary claim ever taken is either released, exactly once, or held by exactly one
      stage, resident or thread; a claim about to be given back is always still there. */
  lemma {:induction false} ClaimsAreReleasedOnce(flags: Flags, es: seq<Timed>)
    ensures var s := Run(Start, flags, es);
            && (forall i, j | 0 <= i < j < |s.released| :: s.released[i] != s.released[j])
            && (forall x <- s.pool :: x !in s.released && exists h: Holder :: x in ClaimsOf(s, h))
            && (forall g: Holder, h: Holder, x: nat {:trigger x in ClaimsOf(s, g), x in ClaimsOf(s, h)} ::
                  x in ClaimsOf(s, g) && x in ClaimsOf(s, h) ==> g == h && x in s.pool)
  {
    Reachable(flags, es);
    hide Run, Sound, TurnsBounded, ClaimsOf;
  }

  /** When no thread holds anything, the claims still out belong to live stages and residents. */
  lemma {:induction false} NoClaimLeaks(flags: Flags, es: seq<Timed>, x: nat)
    ensures var s := Run(Start, flags, es);
            (forall tid <- s.threads :: InHand(s.threads[tid]) == {}) && x in s.pool ==>
              (exists d <- s.c.own.claims :: s.c.own.claims[d] == x)
              || (exists d <- s.c.own.residents :: s.c.own.residents[d].claim == Some(x))
  {
    var s := Run(Start, flags, es);
    if (forall tid <- s.threads :: InHand(s.threads[tid]) == {}) && x in s.pool {
      var h := HolderOf(flags, es, x);
      hide Run;
    }
  }

  lemma {:induction false} HolderOf(flags: Flags, es: seq<Timed>, x: nat) returns (h: Holder)
    requires x in Run(Start, flags, es).pool
    ensures x in ClaimsOf(Run(Start, flags, es), h)
  {
    ClaimsAreReleasedOnce(flags, es);
    hide Run, ClaimsOf;
    h :| x in ClaimsOf(Run(Start, flags, es), h);
  }

  /** Between two dispatches on a device the queue admits at most two projections while
      inference is waiting. */
  lemma {:induction false} BurstsAreBounded(flags: Flags, es: seq<Timed>, d: int)
    ensures Count(Run(Start, flags, es).projections, d) <= TURNS
  {
    Reachable(flags, es);
    hide Run, Sound, Accounted;
  }

  // ----- stale leases -----

  /** A step leaves a stage token alone, drops it, or installs the fresh one. */
  lemma {:induction false} TokensMove(s: System, flags: Flags, now: int, e: Event)
    ensures var s' := Step(s, flags, now, e);
            forall d <- s'.c.own.tokens :: (d in s.c.own.tokens && s'.c.own.tokens[d] == s.c.own.tokens[d])
                || s'.c.own.tokens[d] == s.nextId < s'.nextId
  {
    hide Act, Section;
    if e.Begin? || e.Finish? || e.Reconfigure? {
      SchedulerTokens(s, flags, now, e);
    } else {
      StepIsSection(s, flags, now, e);
      SectionTokens(s.c, Step(s, flags, now, e).c, s.nextId);
    }
  }

  lemma {:induction false} SectionTokens(c: Coordinator, c': Coordinator, token: nat)
    requires Section(c, c', token)
    ensures forall d <- c'.own.tokens ::
              (d in c.own.tokens && c'.own.tokens[d] == c.own.tokens[d]) || c'.own.tokens[d] == token
  {
  }

  lemma {:induction false} SchedulerTokens(s: System, flags: Flags, now: int, e: Event)
    requires e.Begin? || e.Finish? || e.Reconfigure?
    ensures var s' := Step(s, flags, now, e);
            forall d <- s'.c.own.tokens :: d in s.c.own.tokens && s'.c.own.tokens[d] == s.c.own.tokens[d]
  {
    hide Refresh, TurnLeft, NoFewer, Fewer;
    match e
    case Begin(_) => RefreshMoves(s.c, flags, now);
    case _ =>
  }

  predicate Stale(s: System, token: nat) {
    token < s.nextId && forall d <- s.c.own.tokens :: s.c.own.tokens[d] != token
  }

  /** Once a stage has ended, its lease stays without effect for ever: releasing it changes
      nothing, whoever holds the device by then, across reconfigurations too. */
  lemma {:induction false} StaleLeaseIsHarmless(s: System, flags: Flags, es: seq<Timed>, now: int, tid: nat, d: int,
        purpose: Purpose, token: nat)
    requires Stale(s, token)
    ensures Stale(Run(s, flags, es), token)
    ensures Step(Run(s, flags, es), flags, now, Release(tid, d, purpose, token)).c == Run(s, flags, es).c
  {
    if es != [] {
      var init, last := es[..|es| - 1], es[|es| - 1];
      StaleLeaseIsHarmless(s, flags, init, now, tid, d, purpose, token);
      TokensMove(Run(s, flags, init), flags, last.now, last.e);
      hide Act;
      assert Stale(Run(s, flags, es), token);
    }
    StaleRelease(Run(s, flags, es), flags, now, tid, d, purpose, token);
    hide Step;
  }

  lemma {:induction false} StaleRelease(s: System, flags: Flags, now: int, tid: nat, d: int, purpose: Purpose,
        token: nat)
    requires Stale(s, token)
    ensures Step(s, flags, now, Release(tid, d, purpose, token)).c == s.c
  {
  }

  // ----- the turn queue -----

  lemma {:induction false} PurposesOf(head: Request, rest: seq<Request>)
    ensures Purposes([head] + rest) == [head.purpose] + Purposes(rest)
  {
  }

  lemma {:induction false} NoPurposes()
    ensures Purposes([]) == []
  {
  }

  lemma {:induction false} PutKeepsOrder(requests: seq<Request>, purpose: Purpose, devices: seq<int>, now: int)
    ensures var ps := Purposes(requests);
            Purposes(PutRequest(requests, purpose, devices, now)) == if purpose in ps then ps else ps + [purpose]
  {
    hide Purposes;
    if requests == [] {
      PurposesOf(Request(purpose, now + LIFETIME, devices, now), []);
      NoPurposes();
    } else {
      var (head, rest) := (requests[0], requests[1..]);
      PurposesOf(head, rest);
      assert requests == [head] + rest;
      if head.purpose == purpose {
        PurposesOf(Request(purpose, now + LIFETIME, devices, head.first), rest);
      } else {
        PutKeepsOrder(rest, purpose, devices, now);
        PurposesOf(head, PutRequest(rest, purpose, devices, now));
      }
    }
  }

  /** Asking again renews the demand and keeps the time of its first request. */
  lemma {:induction false} PutKeepsFirst(requests: seq<Request>, purpose: Purpose, devices: seq<int>, now: int,
        r: Request)
    requires r in requests && r.purpose == purpose && forall q <- requests :: q.purpose == purpose ==> q == r
    ensures Request(purpose, now + LIFETIME, devices, r.first) in PutRequest(requests, purpose, devices, now)
  {
    if requests[0].purpose != purpose {
      PutKeepsFirst(requests[1..], purpose, devices, now, r);
    }
  }

  /** The section that asks for a turn changes the demands to nothing else. */
  lemma {:induction false} RequestTurnAsks(c: Coordinator, flags: Flags, candidates: seq<int>, purpose: Purpose,
        now: int)
    ensures var live := LiveRequests(c.queue.requests, now);
            var after := RequestTurn(c, flags, candidates, purpose, now);
            || after == c
            || after.queue.requests == live
            || after.queue.requests == PutRequest(live, purpose, Select(candidates, c.workers), now)
  {
    RefreshMoves(c, flags, now);
    RefreshKeepsLive(c, flags, now);
    hide Refresh, PutRequest, Select, Projecting, Position, LeastLoaded, DrainCandidates, Available, QueueMove;
    hide TurnLeft, NoFewer, Purposes, LiveRequests;
    var c1 := Refresh(c, flags, now);
    RefreshKeepsWorkers(c, flags, now);
    var c2 := c1.(queue := c1.queue.(requests :=
        PutRequest(c1.queue.requests, purpose, Select(candidates, c1.workers), now)));
    var choice := DrainCandidates(c2, flags, c2.queue.requests, Available(c2), now);
    if choice != [] {
      assert choice[0] in choice;
      AvailableAreWorkers(c2);
    }
  }

  lemma {:induction false} RefreshKeepsLive(c: Coordinator, flags: Flags, now: int)
    ensures Refresh(c, flags, now).queue.requests == LiveRequests(c.queue.requests, now)
  {
    hide LiveRequests, NextRequest;
  }

  lemma {:induction false} RefreshKeepsWorkers(c: Coordinator, flags: Flags, now: int)
    ensures Refresh(c, flags, now).workers == c.workers
  {
    hide LiveRequests, NextRequest;
  }

  /** Demands stay in the order of their first live request: asking again moves nobody,
      a new demand goes behind every live one. */
  lemma {:induction false} DemandsKeepOrder(c: Coordinator, flags: Flags, candidates: seq<int>, purpose: Purpose,
        now: int)
    ensures var live := Purposes(LiveRequests(c.queue.requests, now));
            var after := Purposes(RequestTurn(c, flags, candidates, purpose, now).queue.requests);
            || RequestTurn(c, flags, candidates, purpose, now) == c
            || after == live
            || after == if purpose in live then live else live + [purpose]
  {
    hide LiveRequests, PutRequest, Select, Purposes, RequestTurn;
    RequestTurnAsks(c, flags, candidates, purpose, now);
    PutKeepsOrder(LiveRequests(c.queue.requests, now), purpose, Select(candidates, c.workers), now);
  }

  /** A handoff that is not claimed in time uses up the device's turns. */
  lemma {:induction false} ExpiredHandoff(c: Coordinator, flags: Flags, now: int)
    requires c.queue.handoff.Some? && now >= c.queue.deadline && Refresh(c, flags, now).queue.handoff != c.queue.handoff
    ensures Refresh(c, flags, now).queue.reserved == None
    ensures LiveRequests(c.queue.requests, now) != [] && flags.pressureRetirement && !c.retiring && c.backlog
            && (c.queue.reserved.Some? ==> NextRequest(c, flags, LiveRequests(c.queue.requests, now),
                c.queue.reserved.value, now).Some?)
            ==> Count(Refresh(c, flags, now).queue.burst, c.queue.handoff.value) >= TURNS
  {
    hide LiveRequests;
    SameDue(c, c.(queue := c.queue.(requests :=
        LiveRequests(c.queue.requests, now))), flags, LiveRequests(c.queue.requests, now), now);
  }

  lemma {:induction false} SameDue(c: Coordinator, c': Coordinator, flags: Flags, requests: seq<Request>, now: int)
    requires c.pressure == c'.pressure
    ensures forall d :: NextRequest(c, flags, requests, d, now) == NextRequest(c', flags, requests, d, now)
  {
    if requests != [] {
      SameDue(c, c', flags, requests[1..], now);
    }
  }

  predicate Quiet(es: seq<Timed>, d: int) {
    forall t <- es :: t.e != Begin(d) && !t.e.Reconfigure?
  }

  /** A device out of turns gets no further turn and admits no queued projection until it
      has accepted inference again. */
  lemma {:induction false} OutOfTurnsWaitsForInference(s: System, flags: Flags, es: seq<Timed>, d: int)
    requires Inv(s) && Count(s.c.queue.burst, d) >= TURNS && Quiet(es, d)
    ensures var s' := Run(s, flags, es);
            && Inv(s') && Count(s'.c.queue.burst, d) >= TURNS
            && s'.c.queue.reserved != Some(d)
            && Count(s'.projections, d) == Count(s.projections, d)
  {
    if es != [] {
      var init, last := es[..|es| - 1], es[|es| - 1];
      OutOfTurnsWaitsForInference(s, flags, init, d);
      OutOfTurnsStep(Run(s, flags, init), flags, last.now, last.e, d);
      hide Step, Sound, Accounted, TurnsBounded;
      StepSound(Run(s, flags, init), flags, last.now, last.e);
      StepAccounted(Run(s, flags, init), flags, last.now, last.e);
      StepTurns(Run(s, flags, init), flags, last.now, last.e);
    }
    TurnsGone(Run(s, flags, es), d);
  }

  lemma {:induction false} TurnsGone(s: System, d: int)
    requires Sound(s.c) && Count(s.c.queue.burst, d) >= TURNS
    ensures s.c.queue.reserved != Some(d)
  {
  }

  lemma {:induction false} OutOfTurnsStep(s: System, flags: Flags, now: int, e: Event, d: int)
    requires Inv(s) && Count(s.c.queue.burst, d) >= TURNS && e != Begin(d) && !e.Reconfigure?
    ensures Count(Step(s, flags, now, e).c.queue.burst, d) >= TURNS
    ensures Count(Step(s, flags, now, e).projections, d) == Count(s.projections, d)
  {
    if e.Begin? {
      RefreshMoves(s.c, flags, now);
      assert Count(s.c.queue.burst, d) <= Count(Refresh(s.c, flags, now).queue.burst, d);
      hide Refresh, Accounted, TurnsBounded, SameOwners;
    } else {
      BurstGrows(s, flags, now, e);
      if e.Commit? {
        var t := ThreadOf(s, e.tid);
        if t.Claimed? && t.attempt.resident.None? && t.attempt.purpose.kind == SourceProjection && s.c.backlog
            && t.attempt.device in s.c.workers {
          var a := t.attempt;
          CommitUsesTurn(s.c, flags, a.device, a.purpose, a.epoch, a.reservation, t.claim, s.nextId, now);
        }
        hide CommitStage, Accounted, TurnsBounded, Exclusive, Paired;
      } else {
        ProjectionsStay(s, flags, now, e);
        hide Step, Inv;
      }
    }
  }

  /** The bound is the queue's: a resident owner's own compute never asks the queue, and is
      admitted on its device whatever the backlog and however many turns are used up. */
  lemma {:induction false} ResidentBypassesQueue(c: Coordinator, flags: Flags, d: int, purpose: Purpose, token: nat,
        reservation: nat, now: int)
    requires OwnsResidency(c, d, token) && d !in c.own.leases && d !in c.own.provisional && Count(c.inflight, d) == 0
    ensures Reserve(c, flags, d, purpose, c.epoch, Some(token), reservation, now)
         == (true, Reserved(c, d, reservation))
    ensures CommitStage(Reserved(c, d, reservation), flags, d, purpose, c.epoch, Some(token), reservation,
                        None, reservation + 1, now).0
  {
    hide PriorityBlocks, RecordProjection;
  }

  // ----- dispatches that outlive a reconfiguration -----

  /** The counters tell the dispatches that are really running. */
  ghost predicate Counted(s: System) {
    forall d: int :: Count(s.c.inflight, d) == Count(s.running, d)
  }

  predicate Settled(s: System) {
    forall d <- s.running :: s.running[d] == 0
  }

  /** Reconfiguring keeps the counters right exactly when no dispatch is running. */
  lemma {:induction false} ReconfigureForgetsDispatches(s: System, flags: Flags, now: int, tid: nat, workers: set<int>)
    requires Counted(s) && ThreadOf(s, tid) == Idle && s.c.own.residents == map[]
    ensures Counted(Step(s, flags, now, Reconfigure(tid, workers))) <==> Settled(s)
  {
    var s' := Step(s, flags, now, Reconfigure(tid, workers));
    if !Settled(s) {
      var d :| d in s.running && s.running[d] != 0;
      assert Count(s'.c.inflight, d) != Count(s'.running, d);
    }
  }

  lemma {:induction false} OtherStepsCount(s: System, flags: Flags, now: int, e: Event)
    requires Counted(s) && !e.Reconfigure?
    ensures Counted(Step(s, flags, now, e))
  {
    hide Act, Section;
    if e.Begin? {
      BeginCounts(s, flags, now, e.d);
    } else if e.Finish? {
      FinishCounts(s, flags, now, e.d);
    } else {
      StepIsSection(s, flags, now, e);
      RunningStays(s, flags, now, e);
      SectionCounts(s, Step(s, flags, now, e));
    }
  }

  lemma {:induction false} SectionCounts(s: System, s': System)
    requires Counted(s) && Section(s.c, s'.c, s.nextId) && s'.running == s.running
    ensures Counted(s')
  {
  }

  lemma {:induction false} BeginCounts(s: System, flags: Flags, now: int, d: int)
    requires Counted(s)
    ensures Counted(Step(s, flags, now, Begin(d)))
  {
    RefreshMoves(s.c, flags, now);
    hide Refresh, TurnLeft, NoFewer;
    var s' := Step(s, flags, now, Begin(d));
    forall x: int
      ensures Count(s'.c.inflight, x) == Count(s'.running, x)
    {
      assert Count(s.c.inflight, x) == Count(s.running, x) && Count(s.c.inflight, d) == Count(s.running, d);
    }
  }

  lemma {:induction false} FinishCounts(s: System, flags: Flags, now: int, d: int)
    requires Counted(s)
    ensures Counted(Step(s, flags, now, Finish(d)))
  {
    hide Fewer;
    var s' := Step(s, flags, now, Finish(d));
    forall x: int
      ensures Count(s'.c.inflight, x) == Count(s'.running, x)
    {
      assert Count(s.c.inflight, x) == Count(s.running, x);
    }
  }

  lemma {:induction false} RunningStays(s: System, flags: Flags, now: int, e: Event)
    requires !e.Begin? && !e.Finish? && !e.Reconfigure?
    ensures Step(s, flags, now, e).running == s.running
  {
    hide Reserve, CommitStage, ReleaseStage, Smallest, RequestTurn, Cancel, SetPressure;
  }

  predicate SettledRun(flags: Flags, es: seq<Timed>) {
    es != [] ==>
      && SettledRun(flags, es[..|es| - 1])
      && (es[|es| - 1].e.Reconfigure? ==> Settled(Run(Start, flags, es[..|es| - 1])))
  }

  /** When runs are reconfigured only between dispatches, exclusion is about the dispatches
      themselves: while one is running on a device, nothing else owns it. */
  lemma {:induction false} RunningDispatchOwnsDevice(flags: Flags, es: seq<Timed>, d: int)
    requires SettledRun(flags, es)
    ensures Counted(Run(Start, flags, es))
    ensures var s := Run(Start, flags, es);
            Count(s.running, d) > 0 ==> d !in s.c.own.leases && d !in s.c.own.provisional && d !in s.c.own.residents
  {
    if es != [] {
      var init, last := es[..|es| - 1], es[|es| - 1];
      RunningDispatchOwnsDevice(flags, init, d);
      Reachable(flags, init);
      var s := Run(Start, flags, init);
      hide Step, Counted, Accounted, TurnsBounded, Sound, Settled;
      if last.e.Reconfigure? {
        if ThreadOf(s, last.e.tid) == Idle && s.c.own.residents == map[] {
          ReconfigureForgetsDispatches(s, flags, last.now, last.e.tid, last.e.workers);
        } else {
          ReconfigureRefused(s, flags, last.now, last.e.tid, last.e.workers);
        }
      } else {
        OtherStepsCount(s, flags, last.now, last.e);
      }
      assert Counted(Run(Start, flags, es));
    } else {
      assert Counted(Start);
    }
    DevicesAreExclusive(flags, es, d);
    CountedAt(Run(Start, flags, es), d);
  }

  lemma {:induction false} ReconfigureRefused(s: System, flags: Flags, now: int, tid: nat, workers: set<int>)
    requires Counted(s) && (ThreadOf(s, tid) != Idle || s.c.own.residents != map[])
    ensures Counted(Step(s, flags, now, Reconfigure(tid, workers)))
  {
  }

  lemma {:induction false} CountedAt(s: System, d: int)
    requires Counted(s)
    ensures Count(s.c.inflight, d) == Count(s.running, d)
  {
  }
}
