/** No device stays reserved behind a claim that has ended. */
module GpuReservations {
  import opened Options
  import opened GpuStages
  import opened GpuClaims
  import opened GpuSafety
  import opened GpuRules
  import opened GpuAccounts
  import opened GpuRuns

  /** The thread is between reserving the device and giving the reservation up. */
  predicate Reserving(t: Thread, d: int, reservation: nat) {
    match t
    case Claiming(a, _) => a.device == d && a.reservation == reservation
    case Claimed(a, _) => a.device == d && a.reservation == reservation
    case Leaving(device, r, _) => device == d && r == reservation
    case _ => false
  }

  ghost predicate Held(s: System) {
    forall d <- s.c.own.provisional :: exists tid <- s.threads :: Reserving(s.threads[tid], d, s.c.own.provisional[d])
  }

  /** No reservation is new, and no thread has changed. */
  lemma {:induction false} FewerHeld(s: System, n: System)
    requires Held(s) && n.threads == s.threads
    requires forall d <- n.c.own.provisional ::
               d in s.c.own.provisional && n.c.own.provisional[d] == s.c.own.provisional[d]
    ensures Held(n)
  {
    forall d | d in n.c.own.provisional
      ensures exists tid <- n.threads :: Reserving(n.threads[tid], d, n.c.own.provisional[d])
    {
      var tid :| tid in s.threads && Reserving(s.threads[tid], d, s.c.own.provisional[d]);
    }
  }

  /** One thread has moved on: it keeps its reservation, had none, or gave it up. */
  lemma {:induction false} MovedHeld(s: System, n: System, tid: nat, t: Thread)
    requires Held(s) && n.threads == s.threads[tid := t]
    requires forall d <- n.c.own.provisional ::
               || Reserving(t, d, n.c.own.provisional[d])
               || (&& d in s.c.own.provisional && n.c.own.provisional[d] == s.c.own.provisional[d]
                   && !Reserving(ThreadOf(s, tid), d, s.c.own.provisional[d]))
    ensures Held(n)
  {
    forall d | d in n.c.own.provisional
      ensures exists k <- n.threads :: Reserving(n.threads[k], d, n.c.own.provisional[d])
    {
      if Reserving(t, d, n.c.own.provisional[d]) {
        assert n.threads[tid] == t;
      } else {
        var k :| k in s.threads && Reserving(s.threads[k], d, s.c.own.provisional[d]);
        assert k != tid && n.threads[k] == s.threads[k];
      }
    }
  }

  lemma {:induction false} QueueOwns(s: System, flags: Flags, now: int, e: Event)
    requires e.Turn? || e.CancelTurn? || e.Pressure? || e.Begin?
    ensures Step(s, flags, now, e).c.own == s.c.own && Step(s, flags, now, e).threads == s.threads
  {
    hide RequestTurn, Refresh, DropRequest, TurnLeft, NoFewer;
    match e
    case Turn(candidates, purpose) => RequestTurnMoves(s.c, flags, candidates, purpose, now);
    case Begin(d) => RefreshQueueOnly(s.c, flags, now);
    case Pressure(active) => RefreshQueueOnly(s.c.(pressure := active), flags, now);
    case CancelTurn(purpose, failed) =>
      RefreshQueueOnly(s.c.(queue := s.c.queue.(
          requests := if failed then [] else DropRequest(s.c.queue.requests, purpose),
          retryAfter := if failed then now + COOLDOWN else s.c.queue.retryAfter)), flags, now);
  }

  lemma {:induction false} ReserveHeld(s: System, flags: Flags, now: int, e: Event)
    requires Held(s) && e.ReserveStage?
    ensures Held(Step(s, flags, now, e))
  {
    hide StageEligible, TurnLeft, NoFewer;
    StageEligibleMoves(s.c, flags, e.d, e.purpose, None, e.resident, now);
    var n := Step(s, flags, now, e);
    if n.threads == s.threads {
      FewerHeld(s, n);
    } else {
      MovedHeld(s, n, e.tid, n.threads[e.tid]);
    }
  }

  lemma {:induction false} CommitHeld(s: System, flags: Flags, now: int, tid: nat)
    requires Held(s)
    ensures Held(Step(s, flags, now, Commit(tid)))
  {
    var t := ThreadOf(s, tid);
    if t.Claimed? {
      CommitReserves(s.c, flags, t.attempt, t.claim, s.nextId, now);
      hide CommitStage;
      var n := Step(s, flags, now, Commit(tid));
      MovedHeld(s, n, tid, n.threads[tid]);
    }
  }

  lemma {:induction false} CommitReserves(c: Coordinator, flags: Flags, a: Attempt, claim: Option<nat>, token: nat,
        now: int)
    ensures var (ok, after) := CommitStage(c, flags, a.device, a.purpose, a.epoch, a.resident, a.reservation, claim,
                token, now);
      after.own.provisional == if ok then c.own.provisional - {a.device} else c.own.provisional
  {
    hide StageEligible, DropRequest, TurnLeft, NoFewer;
    StageEligibleMoves(c, flags, a.device, a.purpose, Some(a.reservation), a.resident, now);
  }

  lemma {:induction false} ThreadHeld(s: System, flags: Flags, now: int, e: Event)
    requires Held(s) && (e.ReadGuard? || e.TakeClaim? || e.ProbeFails? || e.DropClaim? || e.Leave?)
    ensures Held(Step(s, flags, now, e))
  {
    if e.Leave? {
      LeaveHeld(s, flags, now, e.tid);
    } else if e.ReadGuard? || e.TakeClaim? {
      ClaimingHeld(s, flags, now, e);
    } else {
      DroppingHeld(s, flags, now, e);
    }
  }

  lemma {:induction false} ClaimingHeld(s: System, flags: Flags, now: int, e: Event)
    requires Held(s) && (e.ReadGuard? || e.TakeClaim?)
    ensures Held(Step(s, flags, now, e))
  {
    hide Smallest, Held, GuardedByResident;
    var n := Step(s, flags, now, e);
    if n.threads == s.threads {
      FewerHeld(s, n);
    } else {
      MovedHeld(s, n, e.tid, n.threads[e.tid]);
    }
  }

  lemma {:induction false} DroppingHeld(s: System, flags: Flags, now: int, e: Event)
    requires Held(s) && (e.ProbeFails? || e.DropClaim?)
    ensures Held(Step(s, flags, now, e))
  {
    hide Smallest, Held, GuardedByResident;
    var n := Step(s, flags, now, e);
    if n.threads == s.threads {
      FewerHeld(s, n);
    } else {
      MovedHeld(s, n, e.tid, n.threads[e.tid]);
    }
  }

  lemma {:induction false} LeaveHeld(s: System, flags: Flags, now: int, tid: nat)
    requires Held(s)
    ensures Held(Step(s, flags, now, Leave(tid)))
  {
    hide Held;
    var n := Step(s, flags, now, Leave(tid));
    if n.threads == s.threads {
      FewerHeld(s, n);
    } else {
      MovedHeld(s, n, tid, n.threads[tid]);
    }
  }

  lemma {:induction false} ReleaseHeld(s: System, flags: Flags, now: int, e: Event)
    requires Held(s) && (e.Release? || e.ReleaseOwner? || e.Reconfigure?)
    ensures Held(Step(s, flags, now, e))
  {
    hide Held, StageClaims, Refresh, Projecting, NextRequest, ClaimAt;
    if e.Release? {
      RefreshQueueOnly(Unleased(s.c, e.d), flags, now);
    }
    var n := Step(s, flags, now, e);
    if n.threads == s.threads {
      FewerHeld(s, n);
    } else {
      MovedHeld(s, n, e.tid, n.threads[e.tid]);
    }
  }

  lemma {:induction false} RestOwns(s: System, flags: Flags, now: int, e: Event)
    requires e.Finish? || e.Backlog? || e.Priority? || e.Retiring? || e.Retire? || e.PromoteStage? || e.QuarantineOwner?
    ensures Step(s, flags, now, e).c.own.provisional == s.c.own.provisional
    ensures Step(s, flags, now, e).threads == s.threads
  {
    hide CanRetire, Fewer, ClaimAt, HoldsStage;
  }

  lemma {:induction false} StepHeld(s: System, flags: Flags, now: int, e: Event)
    requires Held(s)
    ensures Held(Step(s, flags, now, e))
  {
    hide Step, Held;
    if e.Turn? || e.CancelTurn? || e.Pressure? || e.Begin? {
      QueueOwns(s, flags, now, e);
      FewerHeld(s, Step(s, flags, now, e));
    } else if e.ReserveStage? {
      ReserveHeld(s, flags, now, e);
    } else if e.Commit? {
      CommitHeld(s, flags, now, e.tid);
    } else if e.ReadGuard? || e.TakeClaim? || e.ProbeFails? || e.DropClaim? || e.Leave? {
      ThreadHeld(s, flags, now, e);
    } else if e.Release? || e.ReleaseOwner? || e.Reconfigure? {
      ReleaseHeld(s, flags, now, e);
    } else {
      RestOwns(s, flags, now, e);
      FewerHeld(s, Step(s, flags, now, e));
    }
  }

  /** In every reachable state each reservation belongs to a thread that is still claiming the device; when no
      thread is claiming, no device is reserved. */
  lemma {:induction false} NoReservationLeaks(flags: Flags, es: seq<Timed>, d: int)
    ensures var s := Run(Start, flags, es);
      d in s.c.own.provisional ==> exists tid <- s.threads :: Reserving(s.threads[tid], d, s.c.own.provisional[d])
  {
    RunHeld(flags, es);
    hide Run;
  }

  lemma {:induction false} RunHeld(flags: Flags, es: seq<Timed>)
    ensures Held(Run(Start, flags, es))
  {
    if es != [] {
      RunHeld(flags, es[..|es| - 1]);
      hide Step, Held;
      StepHeld(Run(Start, flags, es[..|es| - 1]), flags, es[|es| - 1].now, es[|es| - 1].e);
    }
  }

  /** Giving up a claim takes away its own reservation and nobody else's. */
  lemma {:induction false} LeavingGivesUpOwn(c: Coordinator, d: int, reservation: nat)
    ensures var after := PopReservation(c, d, reservation);
      && !(d in after.own.provisional && after.own.provisional[d] == reservation)
      && forall w <- c.own.provisional ::
           (w in after.own.provisional && after.own.provisional[w] == c.own.provisional[w])
           <==> !(w == d && c.own.provisional[w] == reservation)
  {
  }
}
