/** Auxiliary claims: every claim taken has exactly one holder until it is released, once. */
module GpuAccounts {
  import opened Options
  import opened GpuStages
  import opened GpuClaims
  import opened GpuSafety

  datatype Holder = OnStage(d: int) | OnResident(d: int) | OnThread(tid: nat)

  function InHand(t: Thread): set<nat> {
    match t
    case Claimed(_, claim) => Hand(claim)
    case Leaving(_, _, claim) => Hand(claim)
    case Dropping(claims) => claims
    case _ => {}
  }

  function ClaimsOf(s: System, h: Holder): set<nat> {
    match h
    case OnStage(d) => if d in s.c.own.claims then {s.c.own.claims[d]} else {}
    case OnResident(d) => if d in s.c.own.residents then Hand(s.c.own.residents[d].claim) else {}
    case OnThread(tid) => InHand(ThreadOf(s, tid))
  }

  ghost predicate Accounted(s: System) {
    && (forall h: Holder, x: nat {:trigger x in ClaimsOf(s, h)} :: x in ClaimsOf(s, h) ==> x in s.pool)
    && (forall g: Holder, h: Holder, x: nat {:trigger x in ClaimsOf(s, g), x in ClaimsOf(s, h)} ::
          x in ClaimsOf(s, g) && x in ClaimsOf(s, h) ==> g == h)
    && (forall x <- s.pool :: exists h: Holder :: x in ClaimsOf(s, h))
    && Ledger(s)
  }

  /** Claims are numbered as they are taken; each is released at most once. */
  ghost predicate Ledger(s: System) {
    && (forall x <- s.pool :: x < s.nextId)
    && (forall x <- s.released :: x < s.nextId && x !in s.pool)
    && (forall i, j | 0 <= i < j < |s.released| :: s.released[i] != s.released[j])
  }

  /** Claims `xs` change hands from `g` to `h`; nothing else moves. */
  ghost predicate Moved(s: System, s': System, g: Holder, h: Holder, xs: set<nat>) {
    && s'.pool == s.pool && s'.released == s.released && s'.nextId >= s.nextId
    && g != h
    && xs <= ClaimsOf(s, g)
    && (forall k: Holder {:trigger ClaimsOf(s', k)} ::
          ClaimsOf(s', k) == if k == g then ClaimsOf(s, g) - xs else if k == h then ClaimsOf(s, h) + xs
              else ClaimsOf(s, k))
  }

  lemma {:induction false} MovedAccounted(s: System, s': System, g: Holder, h: Holder, xs: set<nat>)
    requires Accounted(s) && Moved(s, s', g, h, xs)
    ensures Accounted(s')
  {
    hide ClaimsOf;
    forall x | x in s'.pool
      ensures exists k: Holder :: x in ClaimsOf(s', k)
    {
      var k: Holder :| x in ClaimsOf(s, k);
      if k == g && x in xs {
        assert x in ClaimsOf(s', h);
      } else {
        assert x in ClaimsOf(s', k);
      }
    }
  }

  /** Nothing changes hands. */
  ghost predicate Still(s: System, s': System) {
    && s'.pool == s.pool && s'.released == s.released && s'.nextId >= s.nextId
    && (forall k: Holder {:trigger ClaimsOf(s', k)} :: ClaimsOf(s', k) == ClaimsOf(s, k))
  }

  lemma {:induction false} StillAccounted(s: System, s': System)
    requires Accounted(s) && Still(s, s')
    ensures Accounted(s')
  {
    hide ClaimsOf;
    forall x | x in s'.pool
      ensures exists k: Holder :: x in ClaimsOf(s', k)
    {
      var k: Holder :| x in ClaimsOf(s, k);
      assert x in ClaimsOf(s', k);
    }
  }

  /** A claim comes out of the pool, or goes back into it. */
  lemma {:induction false} GivenAccounted(s: System, s': System, h: Holder, x: nat)
    requires Accounted(s) && x in ClaimsOf(s, h)
    requires s'.pool == s.pool - {x} && s'.released == s.released + [x] && s'.nextId >= s.nextId
    requires forall k: Holder {:trigger ClaimsOf(s', k)} ::
               ClaimsOf(s', k) == if k == h then ClaimsOf(s, h) - {x} else ClaimsOf(s, k)
    ensures Accounted(s')
  {
    hide ClaimsOf;
    forall y | y in s'.pool
      ensures exists k: Holder :: y in ClaimsOf(s', k)
    {
      var k: Holder :| y in ClaimsOf(s, k);
      assert y in ClaimsOf(s', k);
    }
    forall k: Holder, y: nat | y in ClaimsOf(s', k)
      ensures y in s'.pool
    {
      assert y in ClaimsOf(s, k);
    }
  }

  lemma {:induction false} TakenAccounted(s: System, s': System, h: Holder)
    requires Accounted(s) && ClaimsOf(s, h) == {}
    requires s'.pool == s.pool + {s.nextId} && s'.released == s.released && s'.nextId > s.nextId
    requires forall k: Holder {:trigger ClaimsOf(s', k)} ::
               ClaimsOf(s', k) == if k == h then {s.nextId} else ClaimsOf(s, k)
    ensures Accounted(s')
  {
    hide ClaimsOf;
    forall y | y in s'.pool
      ensures exists k: Holder :: y in ClaimsOf(s', k)
    {
      if y == s.nextId {
        assert y in ClaimsOf(s', h);
      } else {
        var k: Holder :| y in ClaimsOf(s, k);
        assert k != h;
        assert y in ClaimsOf(s', k);
      }
    }
  }

  // ----- the steps -----

  /** Steps of the scheduler and of the queue move no claim. */
  lemma {:induction false} QueueStepAccounted(s: System, flags: Flags, now: int, e: Event)
    requires Accounted(s)
    requires e.Begin? || e.Finish? || e.Turn? || e.CancelTurn? || e.Backlog? || e.Pressure? || e.Priority?
             || e.Retiring? || e.Retire?
    ensures Accounted(Step(s, flags, now, e))
  {
    var s' := Step(s, flags, now, e);
    assert s'.c.own.claims == s.c.own.claims && s'.c.own.residents == s.c.own.residents by {
      QueueStepKeepsClaims(s, flags, now, e);
    }
    assert s'.threads == s.threads && s'.pool == s.pool && s'.released == s.released by {
      hide BeginInference, RequestTurn, Cancel, SetPressure, FinishInference, MarkRetired;
    }
    hide Accounted, Step;
    StillAccounted(s, s');
  }

  ghost predicate KeepsClaims(c: Coordinator, c': Coordinator) {
    c'.own.claims == c.own.claims && c'.own.residents == c.own.residents
  }

  lemma {:induction false} BeginKeepsClaims(c: Coordinator, flags: Flags, d: int, now: int)
    ensures KeepsClaims(c, BeginInference(c, flags, d, now).1)
  {
    RefreshMoves(c, flags, now);
    hide Refresh, NoFewer, TurnLeft;
  }

  lemma {:induction false} FinishKeepsClaims(c: Coordinator, d: int)
    ensures KeepsClaims(c, FinishInference(c, d))
  {
  }

  lemma {:induction false} RetireKeepsClaims(c: Coordinator, d: int, task: nat, proofEpoch: nat)
    ensures KeepsClaims(c, MarkRetired(c, d, task, proofEpoch))
  {
    hide CanRetire;
  }

  lemma {:induction false} QueueKeepsClaims(c: Coordinator, flags: Flags, candidates: seq<int>, purpose: Purpose,
        failed: bool, active: bool, now: int)
    ensures KeepsClaims(c, RequestTurn(c, flags, candidates, purpose, now))
    ensures KeepsClaims(c, Cancel(c, flags, purpose, failed, now)) && KeepsClaims(c, SetPressure(c, flags, active, now))
  {
    RequestTurnMoves(c, flags, candidates, purpose, now);
    RefreshMoves(c.(queue := c.queue.(requests := if failed then [] else DropRequest(c.queue.requests, purpose),
                                      retryAfter := if failed then now + COOLDOWN
                                          else c.queue.retryAfter)), flags, now);
    RefreshMoves(c.(pressure := active), flags, now);
    hide Refresh, RequestTurn, DropRequest, NoFewer, TurnLeft;
  }

  lemma {:induction false} QueueStepKeepsClaims(s: System, flags: Flags, now: int, e: Event)
    requires e.Begin? || e.Finish? || e.Turn? || e.CancelTurn? || e.Backlog? || e.Pressure? || e.Priority?
             || e.Retiring? || e.Retire?
    ensures KeepsClaims(s.c, Step(s, flags, now, e).c)
  {
    hide BeginInference, RequestTurn, Cancel, SetPressure, FinishInference, MarkRetired;
    match e
    case Begin(d) => BeginKeepsClaims(s.c, flags, d, now);
    case Finish(d) => FinishKeepsClaims(s.c, d);
    case Retire(d, task, proofEpoch) => RetireKeepsClaims(s.c, d, task, proofEpoch);
    case Turn(candidates, purpose) => QueueKeepsClaims(s.c, flags, candidates, purpose, true, true, now);
    case CancelTurn(purpose, failed) => QueueKeepsClaims(s.c, flags, [], purpose, failed, true, now);
    case Pressure(active) => QueueKeepsClaims(s.c, flags, [], Purpose(Other, 0), true, active, now);
    case _ =>
  }

  lemma {:induction false} ReserveKeepsClaims(c: Coordinator, flags: Flags, d: int, purpose: Purpose, epoch: nat,
        resident: Option<nat>, reservation: nat, now: int)
    ensures KeepsClaims(c, Reserve(c, flags, d, purpose, epoch, resident, reservation, now).1)
  {
    StageEligibleMoves(c, flags, d, purpose, None, resident, now);
    hide StageEligible, NoFewer, TurnLeft;
  }

  /** Claiming: reserve, look, take, commit or give up. */
  lemma {:induction false} ReserveAccounted(s: System, flags: Flags, now: int, e: Event)
    requires Accounted(s) && e.ReserveStage?
    ensures Accounted(Step(s, flags, now, e))
  {
    hide Accounted, Reserve;
    ReserveKeepsClaims(s.c, flags, e.d, e.purpose, e.epoch, e.resident, s.nextId, now);
    StillAccounted(s, Step(s, flags, now, e));
  }

  lemma {:induction false} GuardAccounted(s: System, flags: Flags, now: int, tid: nat)
    requires Accounted(s)
    ensures Accounted(Step(s, flags, now, ReadGuard(tid)))
  {
    hide Accounted, GuardedByResident;
    StillAccounted(s, Step(s, flags, now, ReadGuard(tid)));
  }

  lemma {:induction false} ProbeAccounted(s: System, flags: Flags, now: int, tid: nat)
    requires Accounted(s)
    ensures Accounted(Step(s, flags, now, ProbeFails(tid)))
  {
    hide Accounted;
    StillAccounted(s, Step(s, flags, now, ProbeFails(tid)));
  }

  lemma {:induction false} TakeAccounted(s: System, flags: Flags, now: int, tid: nat, answer: PoolAnswer)
    requires Accounted(s)
    ensures Accounted(Step(s, flags, now, TakeClaim(tid, answer)))
  {
    var s' := Step(s, flags, now, TakeClaim(tid, answer));
    assert Ledger(s);
    hide Accounted;
    if s'.pool == s.pool {
      StillAccounted(s, s');
    } else {
      TakenAccounted(s, s', OnThread(tid));
    }
  }

  /** A commit hands the claim to the stage, or leaves it in the thread's hands. */
  lemma {:induction false} CommitClaims(c: Coordinator, flags: Flags, d: int, purpose: Purpose, epoch: nat,
        resident: Option<nat>, reservation: nat, claim: Option<nat>, token: nat, now: int)
    requires Paired(c)
    ensures var (ok, c') := CommitStage(c, flags, d, purpose, epoch, resident, reservation, claim, token, now);
            && c'.own.residents == c.own.residents
            && (ok ==> d !in c.own.claims)
            && c'.own.claims == if ok && claim.Some? then c.own.claims[d := claim.value] else c.own.claims
  {
    StageEligibleMoves(c, flags, d, purpose, Some(reservation), resident, now);
    hide StageEligible, NoFewer, TurnLeft, DropRequest;
  }

  lemma {:induction false} CommitAccounted(s: System, flags: Flags, now: int, tid: nat)
    requires Accounted(s) && Paired(s.c)
    ensures Accounted(Step(s, flags, now, Commit(tid)))
  {
    hide Accounted, CommitStage, Paired;
    var t := ThreadOf(s, tid);
    if t.Claimed? {
      var a := t.attempt;
      CommitClaims(s.c, flags, a.device, a.purpose, a.epoch, a.resident, a.reservation, t.claim, s.nextId, now);
      var ok := CommitStage(s.c, flags, a.device, a.purpose, a.epoch, a.resident, a.reservation, t.claim, s.nextId,
          now).0;
      if ok && t.claim.Some? {
        CommitMoves(s, flags, now, tid);
      } else {
        StillAccounted(s, Step(s, flags, now, Commit(tid)));
      }
    } else {
      StillAccounted(s, Step(s, flags, now, Commit(tid)));
    }
  }

  /** An admitted claim goes from the thread's hands to the stage. */
  lemma {:induction false} CommitMoves(s: System, flags: Flags, now: int, tid: nat)
    requires Accounted(s) && ThreadOf(s, tid).Claimed? && ThreadOf(s, tid).claim.Some?
    requires var t := ThreadOf(s, tid);
             var a := t.attempt;
             var (ok, c') := CommitStage(s.c, flags, a.device, a.purpose, a.epoch, a.resident, a.reservation, t.claim,
                 s.nextId, now);
             ok && a.device !in s.c.own.claims && c'.own.residents == s.c.own.residents
             && c'.own.claims == s.c.own.claims[a.device := t.claim.value]
    ensures Accounted(Step(s, flags, now, Commit(tid)))
  {
    hide Accounted, CommitStage;
    var t := ThreadOf(s, tid);
    MovedAccounted(s, Step(s, flags, now, Commit(tid)), OnThread(tid), OnStage(t.attempt.device), Hand(t.claim));
  }

  lemma {:induction false} DropAccounted(s: System, flags: Flags, now: int, tid: nat)
    requires Accounted(s)
    ensures Accounted(Step(s, flags, now, DropClaim(tid)))
  {
    hide Accounted;
    var s' := Step(s, flags, now, DropClaim(tid));
    var t := ThreadOf(s, tid);
    if t.Leaving? && t.claim.Some? {
      GivenAccounted(s, s', OnThread(tid), t.claim.value);
    } else if t.Dropping? && t.claims != {} {
      GivenAccounted(s, s', OnThread(tid), Smallest(t.claims));
    } else {
      StillAccounted(s, s');
    }
  }

  lemma {:induction false} LeaveAccounted(s: System, flags: Flags, now: int, e: Event)
    requires Accounted(s) && (e.Leave? || e.QuarantineOwner?)
    ensures Accounted(Step(s, flags, now, e))
  {
    hide Accounted;
    StillAccounted(s, Step(s, flags, now, e));
  }

  lemma {:induction false} ReleaseAccounted(s: System, flags: Flags, now: int, tid: nat, d: int, purpose: Purpose,
        token: nat)
    requires Accounted(s) && Sound(s.c)
    ensures Accounted(Step(s, flags, now, Release(tid, d, purpose, token)))
  {
    var s' := Step(s, flags, now, Release(tid, d, purpose, token));
    hide Accounted, Sound, HoldsStage, Refresh;
    if HoldsStage(s.c, d, purpose, token) && ThreadOf(s, tid) == Idle {
      ReleaseSound(s.c, flags, d, purpose, token, now);
      ReleaseMoves(s, flags, now, tid, d, purpose, token);
    } else {
      StillAccounted(s, s');
    }
  }

  lemma {:induction false} ReleaseMoves(s: System, flags: Flags, now: int, tid: nat, d: int, purpose: Purpose,
        token: nat)
    requires Accounted(s) && ThreadOf(s, tid) == Idle
    requires var (claim, c') := ReleaseStage(s.c, flags, d, purpose, token, now);
             claim == ClaimAt(s.c.own.claims, d) && c'.own.claims == s.c.own.claims - {d}
                 && c'.own.residents == s.c.own.residents
    ensures Accounted(Step(s, flags, now, Release(tid, d, purpose, token)))
  {
    hide Accounted, ReleaseStage;
    MovedAccounted(s, Step(s, flags, now, Release(tid, d, purpose, token)), OnStage(d), OnThread(tid),
        Hand(ClaimAt(s.c.own.claims, d)));
  }

  lemma {:induction false} PromoteAccounted(s: System, flags: Flags, now: int, d: int, purpose: Purpose, token: nat)
    requires Accounted(s)
    ensures Accounted(Step(s, flags, now, PromoteStage(d, purpose, token)))
  {
    hide Accounted;
    var s' := Step(s, flags, now, PromoteStage(d, purpose, token));
    if CanPromote(s.c, d, purpose, token) {
      MovedAccounted(s, s', OnStage(d), OnResident(d), Hand(ClaimAt(s.c.own.claims, d)));
    } else {
      StillAccounted(s, s');
    }
  }

  lemma {:induction false} OwnerAccounted(s: System, flags: Flags, now: int, tid: nat, d: int, token: nat)
    requires Accounted(s)
    ensures Accounted(Step(s, flags, now, ReleaseOwner(tid, d, token)))
  {
    hide Accounted;
    var s' := Step(s, flags, now, ReleaseOwner(tid, d, token));
    if ThreadOf(s, tid) == Idle && ReleaseResidency(s.c, d, token).1 != s.c {
      MovedAccounted(s, s', OnResident(d), OnThread(tid), Hand(s.c.own.residents[d].claim));
    } else {
      StillAccounted(s, s');
    }
  }

  /** A reconfiguration takes every stage claim into one pair of hands. */
  lemma {:induction false} ReconfigureAccounted(s: System, flags: Flags, now: int, tid: nat, workers: set<int>)
    requires Accounted(s)
    ensures Accounted(Step(s, flags, now, Reconfigure(tid, workers)))
  {
    var s' := Step(s, flags, now, Reconfigure(tid, workers));
    if s'.c == s.c && s'.threads == s.threads {
      hide Accounted;
      StillAccounted(s, s');
    } else {
      forall x | x in s'.pool
        ensures exists k: Holder :: x in ClaimsOf(s', k)
      {
        var k: Holder :| x in ClaimsOf(s, k);
        if k.OnStage? {
          assert x in ClaimsOf(s', OnThread(tid));
        } else {
          assert x in ClaimsOf(s', k);
        }
      }
      forall h: Holder, x: nat | x in ClaimsOf(s', h)
        ensures x in s'.pool
      {
        Taken(s, s', flags, now, tid, workers, h, x);
      }
      forall g: Holder, h: Holder, x: nat | x in ClaimsOf(s', g) && x in ClaimsOf(s', h)
        ensures g == h
      {
        Taken(s, s', flags, now, tid, workers, g, x);
        Taken(s, s', flags, now, tid, workers, h, x);
      }
    }
  }

  lemma {:induction false} Taken(s: System, s': System, flags: Flags, now: int, tid: nat, workers: set<int>,
        h: Holder, x: nat)
    requires s' == Step(s, flags, now, Reconfigure(tid, workers)) && (s'.c != s.c || s'.threads != s.threads)
             && x in ClaimsOf(s', h)
    ensures h == OnThread(tid) ==> exists d :: x in ClaimsOf(s, OnStage(d))
    ensures h != OnThread(tid) ==> h.OnThread? && x in ClaimsOf(s, h)
  {
    if h == OnThread(tid) {
      var d :| d in s.c.own.claims && s.c.own.claims[d] == x;
      assert x in ClaimsOf(s, OnStage(d));
    }
  }

  /** Every step of every thread keeps the accounts. */
  lemma {:induction false} StepAccounted(s: System, flags: Flags, now: int, e: Event)
    requires Accounted(s) && Sound(s.c)
    ensures Accounted(Step(s, flags, now, e))
  {
    hide Step, Accounted;
    match e
    case ReserveStage(_, _, _, _, _) => ReserveAccounted(s, flags, now, e);
    case ReadGuard(tid) => GuardAccounted(s, flags, now, tid);
    case ProbeFails(tid) => ProbeAccounted(s, flags, now, tid);
    case TakeClaim(tid, answer) => TakeAccounted(s, flags, now, tid, answer);
    case Commit(tid) => CommitAccounted(s, flags, now, tid);
    case DropClaim(tid) => DropAccounted(s, flags, now, tid);
    case Leave(_) => LeaveAccounted(s, flags, now, e);
    case QuarantineOwner(_, _) => LeaveAccounted(s, flags, now, e);
    case Release(tid, d, purpose, token) => ReleaseAccounted(s, flags, now, tid, d, purpose, token);
    case PromoteStage(d, purpose, token) => PromoteAccounted(s, flags, now, d, purpose, token);
    case ReleaseOwner(tid, d, token) => OwnerAccounted(s, flags, now, tid, d, token);
    case Reconfigure(tid, workers) => ReconfigureAccounted(s, flags, now, tid, workers);
    case _ => QueueStepAccounted(s, flags, now, e);
  }
}
