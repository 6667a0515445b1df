/** The turn queue as a set of demands: one for each purpose, and none lost before its time. */
module GpuDemands {
  import opened Options
  import opened GpuStages
  import opened GpuClaims
  import opened GpuSafety
  import opened GpuTurns
  import opened GpuRuns

  predicate OnePerPurpose(requests: seq<Request>) {
    forall i, j | 0 <= i < j < |requests| :: requests[i].purpose != requests[j].purpose
  }

  lemma {:induction false} OneMore(head: Request, rest: seq<Request>)
    ensures OnePerPurpose([head] + rest) <==> OnePerPurpose(rest) && forall r <- rest :: r.purpose != head.purpose
  {
    var all := [head] + rest;
    if OnePerPurpose(all) {
      forall i, j | 0 <= i < j < |rest|
        ensures rest[i].purpose != rest[j].purpose
      {
        assert all[i + 1] == rest[i] && all[j + 1] == rest[j];
      }
      forall i | 0 <= i < |rest|
        ensures rest[i].purpose != head.purpose
      {
        assert all[i + 1] == rest[i] && all[0] == head;
      }
    }
    if OnePerPurpose(rest) && forall r <- rest :: r.purpose != head.purpose {
      forall i, j | 0 <= i < j < |all|
        ensures all[i].purpose != all[j].purpose
      {
        assert all[j] == rest[j - 1] && rest[j - 1] in rest;
      }
    }
  }

  lemma {:induction false} LiveOnce(requests: seq<Request>, now: int)
    requires OnePerPurpose(requests)
    ensures OnePerPurpose(LiveRequests(requests, now))
  {
    if requests != [] {
      var head, rest := requests[0], requests[1..];
      assert requests == [head] + rest;
      OneMore(head, rest);
      LiveOnce(rest, now);
      forall r | r in LiveRequests(rest, now)
        ensures r in rest
      {
        LiveOnes(rest, now, r);
      }
      OneMore(head, LiveRequests(rest, now));
      assert [] + LiveRequests(rest, now) == LiveRequests(rest, now);
      hide OnePerPurpose;
    }
  }

  /** Dropping a purpose removes its demand and no other. */
  lemma {:induction false} DropOnce(requests: seq<Request>, purpose: Purpose)
    requires OnePerPurpose(requests)
    ensures OnePerPurpose(DropRequest(requests, purpose))
    ensures forall r :: r in DropRequest(requests, purpose) <==> r in requests && r.purpose != purpose
  {
    if requests != [] {
      var head, rest := requests[0], requests[1..];
      assert requests == [head] + rest;
      OneMore(head, rest);
      DropOnce(rest, purpose);
      OneMore(head, DropRequest(rest, purpose));
      hide OnePerPurpose;
    }
  }

  lemma {:induction false} PutOnce(requests: seq<Request>, purpose: Purpose, devices: seq<int>, now: int)
    requires OnePerPurpose(requests)
    ensures OnePerPurpose(PutRequest(requests, purpose, devices, now))
    ensures forall r <- requests :: r.purpose != purpose ==> r in PutRequest(requests, purpose, devices, now)
  {
    var after := PutRequest(requests, purpose, devices, now);
    var k := DemandIsPut(requests, purpose, devices, now);
    forall r | r in requests && r.purpose != purpose
      ensures r in after
    {
      var j :| 0 <= j < |requests| && requests[j] == r;
      assert after[j] == r;
    }
    forall i, j | 0 <= i < j < |after|
      ensures after[i].purpose != after[j].purpose
    {
      if i != k && j != k {
        assert after[i] == requests[i] && after[j] == requests[j];
      } else if j == k {
        assert after[i] == requests[i];
      } else {
        assert after[j] == requests[j];
      }
    }
  }

  /** The step ends the demand of `purpose`: it asks again, withdraws it, fails, leases the device to the projection
      or starts another run. */
  predicate Ends(s: System, e: Event, purpose: Purpose, after: Coordinator) {
    match e
    case Turn(_, asked) => asked == purpose
    case CancelTurn(withdrawn, failed) => withdrawn == purpose || failed
    case ProbeFails(tid) =>
      var t := ThreadOf(s, tid);
      t.Claimed? && t.attempt.purpose.kind == SourceProjection && t.attempt.epoch == s.c.epoch
    case Commit(tid) => Leases(s, tid, purpose, after) && purpose.kind == SourceProjection
    case Reconfigure(tid, _) => ThreadOf(s, tid) == Idle && s.c.own.residents == map[]
    case _ => false
  }

  predicate Leases(s: System, tid: nat, purpose: Purpose, after: Coordinator) {
    var t := ThreadOf(s, tid);
    && t.Claimed? && t.attempt.purpose == purpose
    && t.attempt.device in after.own.leases && t.attempt.device !in s.c.own.leases
  }

  /** The demands after a step: at most one of each purpose, and all those in time that the step does not end. */
  ghost predicate Kept(s: System, now: int, e: Event, after: Coordinator) {
    && OnePerPurpose(after.queue.requests)
    && forall r <- s.c.queue.requests :: now < r.expiry && !Ends(s, e, r.purpose, after) ==> r in after.queue.requests
  }

  lemma {:induction false} LiveKept(s: System, now: int, e: Event, after: Coordinator)
    requires OnePerPurpose(s.c.queue.requests)
    requires || after.queue.requests == s.c.queue.requests
             || after.queue.requests == LiveRequests(s.c.queue.requests, now)
    ensures Kept(s, now, e, after)
  {
    LiveOnce(s.c.queue.requests, now);
    forall r | r in s.c.queue.requests && now < r.expiry
      ensures r in LiveRequests(s.c.queue.requests, now)
    {
      LiveOnes(s.c.queue.requests, now, r);
    }
    hide LiveRequests, Ends, OnePerPurpose;
  }

  lemma {:induction false} TurnKept(s: System, flags: Flags, now: int, candidates: seq<int>, purpose: Purpose)
    requires OnePerPurpose(s.c.queue.requests)
    ensures Kept(s, now, Turn(candidates, purpose), RequestTurn(s.c, flags, candidates, purpose, now))
  {
    var after := RequestTurn(s.c, flags, candidates, purpose, now);
    var live := LiveRequests(s.c.queue.requests, now);
    RequestTurnAsks(s.c, flags, candidates, purpose, now);
    hide RequestTurn, PutRequest, LiveRequests, Select, OnePerPurpose;
    LiveKept(s, now, Turn(candidates, purpose), s.c.(queue := s.c.queue.(requests := live)));
    LiveKept(s, now, Turn(candidates, purpose), s.c);
    PutOnce(live, purpose, Select(candidates, s.c.workers), now);
  }

  lemma {:induction false} CancelKept(s: System, flags: Flags, now: int, purpose: Purpose, failed: bool)
    requires OnePerPurpose(s.c.queue.requests)
    ensures Kept(s, now, CancelTurn(purpose, failed), Cancel(s.c, flags, purpose, failed, now))
    ensures forall r <- Cancel(s.c, flags, purpose, failed, now).queue.requests :: r.purpose != purpose
  {
    var rest := if failed then [] else DropRequest(s.c.queue.requests, purpose);
    DropOnce(s.c.queue.requests, purpose);
    LiveOnce(rest, now);
    RefreshKeepsLive(s.c.(queue := s.c.queue.(requests := rest,
        retryAfter := if failed then now + COOLDOWN else s.c.queue.retryAfter)), flags, now);
    forall r: Request
      ensures r in LiveRequests(rest, now) <==> r in rest && now < r.expiry
    {
      LiveOnes(rest, now, r);
    }
    hide Refresh, LiveRequests, DropRequest, OnePerPurpose;
  }

  lemma {:induction false} EligibleAsks(c: Coordinator, flags: Flags, d: int, purpose: Purpose,
        reservation: Option<nat>, resident: Option<nat>, now: int)
    ensures var after := StageEligible(c, flags, d, purpose, reservation, resident, now).1;
      || after.queue.requests == c.queue.requests
      || after.queue.requests == LiveRequests(c.queue.requests, now)
  {
    RefreshKeepsLive(c, flags, now);
    hide Refresh, LiveRequests, NextRequest, Projecting;
  }

  /** What a commit leaves of the queue: a projection that gets its device takes its own demand with it. */
  ghost predicate Spent(c: Coordinator, d: int, purpose: Purpose, after: Coordinator, ok: bool, now: int) {
    && OnePerPurpose(after.queue.requests)
    && (forall r <- c.queue.requests ::
          now < r.expiry && !(ok && purpose.kind == SourceProjection && r.purpose == purpose)
          ==> r in after.queue.requests)
    && (ok && purpose.kind == SourceProjection ==> forall r <- after.queue.requests :: r.purpose != purpose)
    && (if ok then d in after.own.leases && d !in c.own.leases else after.own.leases == c.own.leases)
  }

  lemma {:induction false} CommitSpends(c: Coordinator, flags: Flags, a: Attempt, claim: Option<nat>, token: nat,
        now: int)
    requires OnePerPurpose(c.queue.requests)
    ensures var (ok, after) := CommitStage(c, flags, a.device, a.purpose, a.epoch, a.resident, a.reservation, claim,
                token, now);
      Spent(c, a.device, a.purpose, after, ok, now)
  {
    EligibleAsks(c, flags, a.device, a.purpose, Some(a.reservation), a.resident, now);
    StageEligibleMoves(c, flags, a.device, a.purpose, Some(a.reservation), a.resident, now);
    var asked := StageEligible(c, flags, a.device, a.purpose, Some(a.reservation), a.resident, now).1;
    LiveOnce(c.queue.requests, now);
    forall r | r in c.queue.requests && now < r.expiry
      ensures r in LiveRequests(c.queue.requests, now)
    {
      LiveOnes(c.queue.requests, now, r);
    }
    DropOnce(asked.queue.requests, a.purpose);
    hide StageEligible, DropRequest, LiveRequests, OnePerPurpose, NoFewer, TurnLeft;
  }

  lemma {:induction false} CommitKept(s: System, flags: Flags, now: int, tid: nat)
    requires OnePerPurpose(s.c.queue.requests)
    ensures var after := Step(s, flags, now, Commit(tid)).c;
      && Kept(s, now, Commit(tid), after)
      && forall p :: Leases(s, tid, p, after) && p.kind == SourceProjection ==>
                       forall r <- after.queue.requests :: r.purpose != p
  {
    hide CommitStage, OnePerPurpose;
    var t := ThreadOf(s, tid);
    if t.Claimed? {
      CommitSpends(s.c, flags, t.attempt, t.claim, s.nextId, now);
    }
  }

  lemma {:induction false} RestAsks(s: System, flags: Flags, now: int, e: Event)
    requires !e.Turn? && !e.CancelTurn? && !e.Commit? && !e.ProbeFails? && !e.Reconfigure?
    ensures var after := Step(s, flags, now, e).c;
      || after.queue.requests == s.c.queue.requests
      || after.queue.requests == LiveRequests(s.c.queue.requests, now)
  {
    hide Step;
    if e.ReserveStage? || e.Begin? || e.Pressure? || e.Release? {
      ExpiredAsks(s, flags, now, e);
    } else {
      SilentAsks(s, flags, now, e);
    }
  }

  lemma {:induction false} ExpiredAsks(s: System, flags: Flags, now: int, e: Event)
    requires e.ReserveStage? || e.Begin? || e.Pressure? || e.Release?
    ensures var after := Step(s, flags, now, e).c;
      || after.queue.requests == s.c.queue.requests
      || after.queue.requests == LiveRequests(s.c.queue.requests, now)
  {
    hide LiveRequests, StageEligible, Refresh, NextRequest, Projecting, ClaimAt, HoldsStage;
    match e
    case ReserveStage(_, d, purpose, _, resident) => EligibleAsks(s.c, flags, d, purpose, None, resident, now);
    case Begin(d) => RefreshKeepsLive(s.c, flags, now);
    case Pressure(active) => RefreshKeepsLive(s.c.(pressure := active), flags, now);
    case Release(_, d, _, _) => RefreshKeepsLive(Unleased(s.c, d), flags, now);
  }

  lemma {:induction false} SilentAsks(s: System, flags: Flags, now: int, e: Event)
    requires !e.Turn? && !e.CancelTurn? && !e.Commit? && !e.ProbeFails? && !e.Reconfigure?
    requires !e.ReserveStage? && !e.Begin? && !e.Pressure? && !e.Release?
    ensures Step(s, flags, now, e).c.queue.requests == s.c.queue.requests
  {
    hide CanRetire, Fewer, ClaimAt, HoldsStage, Smallest, GuardedByResident;
  }

  lemma {:induction false} StepKept(s: System, flags: Flags, now: int, e: Event)
    requires OnePerPurpose(s.c.queue.requests)
    ensures Kept(s, now, e, Step(s, flags, now, e).c)
  {
    hide Kept, OnePerPurpose, RequestTurn, Cancel;
    match e
    case Turn(candidates, purpose) =>
      TurnKept(s, flags, now, candidates, purpose);
    case CancelTurn(purpose, failed) =>
      CancelKept(s, flags, now, purpose, failed);
    case Commit(tid) => CommitKept(s, flags, now, tid);
    case ProbeFails(tid) => FailureKept(s, flags, now, e);
    case Reconfigure(tid, workers) => FailureKept(s, flags, now, e);
    case _ =>
      RestAsks(s, flags, now, e);
      LiveKept(s, now, e, Step(s, flags, now, e).c);
  }

  lemma {:induction false} FailureKept(s: System, flags: Flags, now: int, e: Event)
    requires OnePerPurpose(s.c.queue.requests) && (e.ProbeFails? || e.Reconfigure?)
    ensures Kept(s, now, e, Step(s, flags, now, e).c)
  {
    hide StageClaims;
    if Step(s, flags, now, e).c.queue.requests == s.c.queue.requests {
      LiveKept(s, now, e, Step(s, flags, now, e).c);
    }
  }

  lemma {:induction false} RunOnce(flags: Flags, es: seq<Timed>)
    ensures OnePerPurpose(Run(Start, flags, es).c.queue.requests)
  {
    if es != [] {
      RunOnce(flags, es[..|es| - 1]);
      hide Step, Kept;
      StepKept(Run(Start, flags, es[..|es| - 1]), flags, es[|es| - 1].now, es[|es| - 1].e);
    }
  }

  /** In every run the queue holds at most one demand of each purpose, and a step leaves every demand that is in
      time, unless it is the one that the step renews, withdraws or meets, or the step fails or starts another
      run. */
  lemma {:induction false} DemandsPersist(flags: Flags, es: seq<Timed>, now: int, e: Event)
    ensures var s := Run(Start, flags, es);
      var after := Step(s, flags, now, e).c;
      && OnePerPurpose(after.queue.requests)
      && forall r <- s.c.queue.requests ::
           now < r.expiry && !Ends(s, e, r.purpose, after) ==> r in after.queue.requests
  {
    RunOnce(flags, es);
    hide Step, Run, Ends;
    StepKept(Run(Start, flags, es), flags, now, e);
  }

  /** A projection that gets its device has no demand left in the queue, and neither has one that withdraws. */
  lemma {:induction false} DemandIsMet(flags: Flags, es: seq<Timed>, now: int, e: Event, purpose: Purpose)
    ensures var s := Run(Start, flags, es);
      var after := Step(s, flags, now, e).c;
      (e.Commit? && Leases(s, e.tid, purpose, after) && purpose.kind == SourceProjection)
      || (e.CancelTurn? && e.purpose == purpose) ==>
        forall r <- after.queue.requests :: r.purpose != purpose
  {
    RunOnce(flags, es);
    var s := Run(Start, flags, es);
    hide Run;
    if e.Commit? {
      hide Step;
      CommitKept(s, flags, now, e.tid);
    } else if e.CancelTurn? {
      CancelKept(s, flags, now, e.purpose, e.failed);
      hide Cancel;
    }
  }
}
