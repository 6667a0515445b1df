/** The coordinator under arbitrary interleaving. */
module GpuClaims {
  // Claiming a device takes several steps: reserve it under the lock, look for a resident guard, take an
  // auxiliary claim outside the lock, re-check and commit under the lock, and clean up. Any step of any
  // thread, of the scheduler and of a lease holder may come between two of them.

  import opened Options
  import opened GpuStages

  datatype Attempt = Attempt(device: int, purpose: Purpose, epoch: nat, resident: Option<nat>, reservation: nat)

  /** Where a claiming thread stands, and the auxiliary claims in its hands. */
  datatype Thread =
    | Idle
    | Claiming(attempt: Attempt, guarded: bool)
    | Claimed(attempt: Attempt, claim: Option<nat>)
    | Leaving(device: int, reservation: nat, claim: Option<nat>)
    | Dropping(claims: set<nat>)

  /** `pool` holds the claims taken and not yet released; `released` lists releases in order.
      `running` counts, per device, the dispatches begun and not finished;
      `projections` counts, per device, the projections admitted by the turn queue while
      inference was waiting, since the last dispatch there. */
  datatype System = System(
    c: Coordinator,
    threads: map<nat, Thread>,
    pool: set<nat>,
    released: seq<nat>,
    nextId: nat,
    running: map<int, nat>,
    projections: map<int, nat>)

  const Start := System(Initial, map[], {}, [], 0, map[], map[])

  datatype PoolAnswer = NoPool | Unusable | Refused | Granted

  datatype Event =
    | Begin(d: int)
    | Finish(d: int)
    | Turn(candidates: seq<int>, purpose: Purpose)
    | CancelTurn(purpose: Purpose, failed: bool)
    | Backlog(active: bool)
    | Pressure(active: bool)
    | Priority(active: bool)
    | Retiring(active: bool)
    | Retire(d: int, task: nat, proofEpoch: nat)
    | Reconfigure(tid: nat, workers: set<int>)
    | ReserveStage(tid: nat, d: int, purpose: Purpose, epoch: nat, resident: Option<nat>)
    | ReadGuard(tid: nat)
    | TakeClaim(tid: nat, answer: PoolAnswer)
    | ProbeFails(tid: nat)
    | Commit(tid: nat)
    | DropClaim(tid: nat)
    | Leave(tid: nat)
    | Release(tid: nat, d: int, purpose: Purpose, token: nat)
    | PromoteStage(d: int, purpose: Purpose, token: nat)
    | QuarantineOwner(d: int, token: nat)
    | ReleaseOwner(tid: nat, d: int, token: nat)

  function ThreadOf(s: System, tid: nat): Thread {
    if tid in s.threads then s.threads[tid] else Idle
  }

  function Hand(claim: Option<nat>): set<nat> {
    if claim.Some? then {claim.value} else {}
  }

  function Put(s: System, tid: nat, t: Thread): System {
    s.(threads := s.threads[tid := t])
  }

  /** Give one claim back to the pool. */
  function Give(s: System, claim: nat): System {
    s.(pool := s.pool - {claim}, released := s.released + [claim])
  }

  function StageClaims(c: Coordinator): set<nat> {
    set d | d in c.own.claims :: c.own.claims[d]
  }

  /** One atomic step; every step uses up one number, so fresh tokens and claims never repeat. */
  function Step(s: System, flags: Flags, now: int, e: Event): System {
    Act(s, flags, now, e).(nextId := s.nextId + 1)
  }

  function Act(s: System, flags: Flags, now: int, e: Event): System {
    match e
    case Begin(d) =>
      var (ok, c) := BeginInference(s.c, flags, d, now);
      if ok then s.(c := c, running := s.running[d := Count(s.running, d) + 1], projections := s.projections - {d})
      else s.(c := c)
    case Finish(d) =>
      if Count(s.running, d) == 0 then s
      else s.(c := FinishInference(s.c, d), running := s.running[d := Count(s.running, d) - 1])
    case Turn(candidates, purpose) => s.(c := RequestTurn(s.c, flags, candidates, purpose, now))
    case CancelTurn(purpose, failed) => s.(c := Cancel(s.c, flags, purpose, failed, now))
    case Backlog(active) => s.(c := SetBacklog(s.c, active))
    case Pressure(active) => s.(c := SetPressure(s.c, flags, active, now))
    case Priority(active) => s.(c := SetPriority(s.c, active))
    case Retiring(active) => s.(c := SetRetiring(s.c, active))
    case Retire(d, task, proofEpoch) => s.(c := MarkRetired(s.c, d, task, proofEpoch))
    case Reconfigure(tid, workers) =>
      if ThreadOf(s, tid) != Idle || s.c.own.residents != map[] then s
      else Put(s, tid, Dropping(StageClaims(s.c))).(c := Configure(s.c, workers), projections := map[])
    case ReserveStage(tid, d, purpose, epoch, resident) =>
      if ThreadOf(s, tid) != Idle then s
      else
        var (ok, c) := Reserve(s.c, flags, d, purpose, epoch, resident, s.nextId, now);
        if ok then Put(s, tid, Claiming(Attempt(d, purpose, epoch, resident, s.nextId), false)).(c := c)
        else s.(c := c)
    case ReadGuard(tid) =>
      var t := ThreadOf(s, tid);
      if t.Claiming? then Put(s, tid, t.(guarded := GuardedByResident(s.c, t.attempt.device))) else s
    case TakeClaim(tid, answer) =>
      var t := ThreadOf(s, tid);
      if !t.Claiming? then s
      else if answer.NoPool? || t.guarded then Put(s, tid, Claimed(t.attempt, None))
      else if answer.Granted? then
        Put(s, tid, Claimed(t.attempt, Some(s.nextId))).(pool := s.pool + {s.nextId})
      else Put(s, tid, Leaving(t.attempt.device, t.attempt.reservation, None))
    case ProbeFails(tid) =>
      var t := ThreadOf(s, tid);
      if !t.Claimed? then s
      else
        var failed := t.attempt.purpose.kind == SourceProjection && s.c.epoch == t.attempt.epoch;
        var c := if failed then FailedProbe(s.c, now) else s.c;
        Put(s, tid, Leaving(t.attempt.device, t.attempt.reservation, t.claim)).(c := c)
    case Commit(tid) =>
      var t := ThreadOf(s, tid);
      if !t.Claimed? then s
      else
        var a := t.attempt;
        var (ok, c) := CommitStage(s.c, flags, a.device, a.purpose, a.epoch, a.resident, a.reservation, t.claim,
            s.nextId, now);
        var s' := Put(s, tid, Leaving(a.device, a.reservation, if ok then None else t.claim)).(c := c);
        if ok && a.purpose.kind == SourceProjection && a.resident.None? && s.c.backlog && a.device in s.c.workers
        then s'.(projections := s.projections[a.device := Count(s.projections, a.device) + 1])
        else s'
    case DropClaim(tid) =>
      var t := ThreadOf(s, tid);
      if t.Leaving? && t.claim.Some? then Put(Give(s, t.claim.value), tid, t.(claim := None))
      else if t.Dropping? && t.claims != {} then
        var claim := Smallest(t.claims);
        Put(Give(s, claim), tid, Dropping(t.claims - {claim}))
      else s
    case Leave(tid) =>
      var t := ThreadOf(s, tid);
      if t.Leaving? && t.claim.None? then Put(s, tid, Idle).(c := PopReservation(s.c, t.device, t.reservation))
      else if t.Dropping? && t.claims == {} then Put(s, tid, Idle)
      else s
    case Release(tid, d, purpose, token) =>
      if ThreadOf(s, tid) != Idle then s
      else
        var (claim, c) := ReleaseStage(s.c, flags, d, purpose, token, now);
        Put(s, tid, Dropping(Hand(claim))).(c := c)
    case PromoteStage(d, purpose, token) =>
      s.(c := Promote(s.c, d, purpose, token, s.nextId))
    case QuarantineOwner(d, token) => s.(c := Quarantine(s.c, d, token))
    case ReleaseOwner(tid, d, token) =>
      if ThreadOf(s, tid) != Idle then s
      else
        var (claim, c) := ReleaseResidency(s.c, d, token);
        Put(s, tid, Dropping(Hand(claim))).(c := c)
  }

  function Smallest(xs: set<nat>): (x: nat)
    requires xs != {}
    ensures x in xs
  {
    var w :| w in xs;
    HasSmallest(xs, 0, w);
    var x :| x in xs && forall y <- xs :: x <= y;
    x
  }

  lemma {:induction false} HasSmallest(xs: set<nat>, from: nat, w: nat)
    requires w in xs && forall y <- xs :: from <= y
    ensures exists x <- xs :: forall y <- xs :: x <= y
    decreases w - from
  {
    if from !in xs {
      HasSmallest(xs, from + 1, w);
    }
  }
}
