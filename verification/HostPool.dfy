/** The host publication pool: bytes and tasks reserved before capture, and given back. */
module HostPool {
  // The owner of a reservation captures, submits a job, and releases when either fails; the job releases
  // when it is done. Releasing reads the reservation's flag, sets it, and gives the credit back, without
  // a lock around the three. Every such access and every section under the pool's lock is one step.

  datatype Limits = Limits(bytes: nat, tasks: nat, workers: nat)

  datatype Pool = Pool(bytes: int, tasks: int, closed: bool)

  // The sections under the pool's lock

  predicate Admissible(p: Pool, limits: Limits, size: int) {
    0 <= size <= limits.bytes && !p.closed && p.bytes + size <= limits.bytes && p.tasks < limits.tasks
  }

  function Admit(p: Pool, size: int): Pool {
    p.(bytes := p.bytes + size, tasks := p.tasks + 1)
  }

  function GiveBack(p: Pool, size: int): Pool {
    p.(bytes := p.bytes - size, tasks := p.tasks - 1)
  }

  // Reservations

  /** A thread inside release: before it reads the flag, after it read it, and after it set it. */
  datatype Releaser = AtFlag | Saw(clear: bool) | Owing

  /** `Calling` is inside a release with `left` more calls to make. */
  datatype Owner = Capturing | Calling(left: nat, at: Releaser) | Gone

  datatype Job = NoJob | Queued | Running | Ending(at: Releaser) | Finished

  /** `overlapped` once two threads have read the flag clear; `returned` counts the credits given back. */
  datatype Reservation = Reservation(size: nat, raised: bool, owner: Owner, job: Job, returned: nat, overlapped: bool)

  /** How the executor answers: it takes the job, starting a thread for it or not, refuses it, or takes
      it and then raises, because it could not start another thread or because it was interrupted. */
  datatype Answer = Takes(starts: bool) | Refuses | TakesThenRaises

  datatype System = System(pool: Pool, held: map<nat, Reservation>, issued: nat, threads: nat)

  const Start := System(Pool(0, 0, false), map[], 0, 0)

  datatype Event =
    | Reserve(size: int)
    | CaptureFails(id: nat)
    | Submit(id: nat, answer: Answer)
    | OwnerStep(id: nat)
    | JobStep(id: nat)
    | Shutdown

  function Busy(s: System): set<nat> {
    set id | id in s.held && (s.held[id].job.Running? || s.held[id].job.Ending?)
  }

  predicate Possible(s: System, limits: Limits, answer: Answer) {
    match answer
    case Refuses => true
    case Takes(starts) => if starts then s.threads < limits.workers else s.threads > 0
    case TakesThenRaises => true
  }

  function Set(s: System, id: nat, r: Reservation): System {
    s.(held := s.held[id := r])
  }

  function AfterCall(left: nat): Owner {
    if left == 0 then Gone else Calling(left - 1, AtFlag)
  }

  function OwnerReleases(s: System, id: nat, r: Reservation): System
    requires r.owner.Calling?
  {
    var left := r.owner.left;
    match r.owner.at
    case AtFlag =>
      Set(s, id, r.(owner := Calling(left, Saw(!r.raised)),
                    overlapped := r.overlapped || (!r.raised && r.job == Ending(Saw(true)))))
    case Saw(clear) =>
      if clear then Set(s, id, r.(owner := Calling(left, Owing), raised := true))
      else Set(s, id, r.(owner := AfterCall(left)))
    case Owing =>
      Set(s, id, r.(owner := AfterCall(left), returned := r.returned + 1)).(pool := GiveBack(s.pool, r.size))
  }

  function JobReleases(s: System, id: nat, r: Reservation): System
    requires r.job.Ending?
  {
    match r.job.at
    case AtFlag =>
      Set(s, id, r.(job := Ending(Saw(!r.raised)),
                    overlapped := r.overlapped || (!r.raised && r.owner.Calling? && r.owner.at == Saw(true))))
    case Saw(clear) =>
      if clear then Set(s, id, r.(job := Ending(Owing), raised := true)) else Set(s, id, r.(job := Finished))
    case Owing =>
      Set(s, id, r.(job := Finished, returned := r.returned + 1)).(pool := GiveBack(s.pool, r.size))
  }

  function Next(s: System, limits: Limits, e: Event): System {
    match e
    case Reserve(size) =>
      if Admissible(s.pool, limits, size)
      then System(Admit(s.pool, size), s.held[s.issued := Reservation(size, false, Capturing, NoJob, 0, false)],
                  s.issued + 1, s.threads)
      else s
    case CaptureFails(id) =>
      if id in s.held && s.held[id].owner.Capturing? then Set(s, id, s.held[id].(owner := Calling(0, AtFlag))) else s
    case Submit(id, answer) =>
      if id !in s.held || !s.held[id].owner.Capturing? || !Possible(s, limits, answer) then s
      else
        var r := s.held[id];
        (match answer
         case Takes(starts) =>
           Set(s, id, r.(owner := Gone, job := Queued)).(threads := if starts then s.threads + 1 else s.threads)
         case Refuses => Set(s, id, r.(owner := Calling(1, AtFlag)))
         case TakesThenRaises => Set(s, id, r.(owner := Calling(1, AtFlag), job := Queued)))
    case OwnerStep(id) =>
      if id in s.held && s.held[id].owner.Calling? then OwnerReleases(s, id, s.held[id]) else s
    case JobStep(id) =>
      if id !in s.held then s
      else
        var r := s.held[id];
        (match r.job
         case Queued => if |Busy(s)| < s.threads then Set(s, id, r.(job := Running)) else s
         case Running => Set(s, id, r.(job := Ending(AtFlag)))
         case Ending(_) => JobReleases(s, id, r)
         case _ => s)
    case Shutdown => s.(pool := s.pool.(closed := true))
  }

  function Run(limits: Limits, es: seq<Event>): System {
    if es == [] then Start else Next(Run(limits, es[..|es| - 1]), limits, es[|es| - 1])
  }

  // The accounts of one reservation

  function OwnerOwes(r: Reservation): nat {
    if r.owner.Calling? && (r.owner.at == Saw(true) || r.owner.at.Owing?) then 1 else 0
  }

  function JobOwes(r: Reservation): nat {
    if r.job == Ending(Saw(true)) || r.job == Ending(Owing) then 1 else 0
  }

  predicate Settled(r: Reservation) {
    r.owner.Gone? && (r.job.NoJob? || r.job.Finished?)
  }

  ghost predicate Balanced(r: Reservation) {
    && r.returned + OwnerOwes(r) + JobOwes(r) <= (if r.overlapped then 2 else 1)
    && (r.overlapped ==> r.returned + OwnerOwes(r) + JobOwes(r) == 2)
    && (r.raised <==> r.returned > 0 || (r.owner.Calling? && r.owner.at.Owing?) || r.job == Ending(Owing))
    && (r.owner.Capturing? ==> r.job.NoJob? && r.returned == 0)
    && (r.owner.Gone? && r.job.NoJob? ==> r.raised)
    && (r.job.Finished? ==> r.raised)
    && (r.owner.Calling? && r.owner.at == Saw(false) ==> r.raised)
    && (r.job == Ending(Saw(false)) ==> r.raised)
    && (r.owner.Calling? && r.owner.left == 0 && r.job.Queued? ==> r.raised)
  }

  /** The credits of the first `n` reservations: one for each that is live, and one less for each that
      has been given back twice. */
  function Credits(held: map<nat, Reservation>, n: nat): int {
    if n == 0 then 0 else Credits(held, n - 1) + (if n - 1 in held then 1 - held[n - 1].returned else 0)
  }

  function CreditBytes(held: map<nat, Reservation>, n: nat): int {
    if n == 0 then 0
    else CreditBytes(held, n - 1) + (if n - 1 in held then (1 - held[n - 1].returned) * held[n - 1].size else 0)
  }

  ghost predicate Inv(s: System, limits: Limits) {
    && (forall id | id in s.held :: id < s.issued && Balanced(s.held[id]))
    && s.pool.tasks == Credits(s.held, s.issued) <= limits.tasks
    && s.pool.bytes == CreditBytes(s.held, s.issued) <= limits.bytes
  }

  lemma {:induction false} CreditsMove(held: map<nat, Reservation>, n: nat, id: nat, r: Reservation)
    requires id in held && r.size == held[id].size
    ensures Credits(held[id := r], n) == Credits(held, n) + (if id < n then held[id].returned - r.returned else 0)
    ensures CreditBytes(held[id := r], n)
         == CreditBytes(held, n) + (if id < n then (held[id].returned - r.returned) * r.size else 0)
  {
    if n > 0 {
      CreditsMove(held, n - 1, id, r);
      if n - 1 == id {
        var was, now := held[id].returned, r.returned;
        assert (1 - now) * r.size == (1 - was) * r.size + (was - now) * r.size;
      }
    }
  }

  lemma {:induction false} CreditsAdd(held: map<nat, Reservation>, n: nat, id: nat, r: Reservation)
    requires id !in held && n <= id
    ensures Credits(held[id := r], n) == Credits(held, n)
    ensures CreditBytes(held[id := r], n) == CreditBytes(held, n)
  {
    if n > 0 {
      CreditsAdd(held, n - 1, id, r);
    }
  }

  lemma {:induction false} ReserveKeeps(s: System, limits: Limits, size: int)
    requires Inv(s, limits)
    ensures Inv(Next(s, limits, Reserve(size)), limits)
  {
    if Admissible(s.pool, limits, size) {
      var r := Reservation(size, false, Capturing, NoJob, 0, false);
      assert s.issued !in s.held;
      CreditsAdd(s.held, s.issued, s.issued, r);
      hide Credits, CreditBytes, Balanced;
      FreshBalanced(size);
      NextCredit(s.held[s.issued := r], s.issued);
    }
  }

  lemma {:induction false} FreshBalanced(size: nat)
    ensures Balanced(Reservation(size, false, Capturing, NoJob, 0, false))
  {
  }

  lemma {:induction false} NextCredit(held: map<nat, Reservation>, n: nat)
    requires n in held && held[n].returned == 0
    ensures Credits(held, n + 1) == Credits(held, n) + 1
    ensures CreditBytes(held, n + 1) == CreditBytes(held, n) + held[n].size
  {
  }

  /** What a step other than reserving does: one reservation moves, and the pool with what it gives back. */
  lemma {:induction false} OneMoves(s: System, limits: Limits, e: Event, id: nat)
    requires !e.Reserve? && !e.Shutdown? && (e.CaptureFails? || e.Submit? || e.OwnerStep? || e.JobStep?) && e.id == id
    requires id in s.held && Balanced(s.held[id])
    ensures var n := Next(s, limits, e);
      && id in n.held && n.held == s.held[id := n.held[id]] && n.issued == s.issued
      && Balanced(n.held[id]) && n.held[id].size == s.held[id].size
      && (|| (n.held[id].returned == s.held[id].returned && n.pool == s.pool)
          || (n.held[id].returned == s.held[id].returned + 1 && n.pool == GiveBack(s.pool, s.held[id].size)))
  {
    hide Possible, Busy;
  }

  lemma {:induction false} StepKeeps(s: System, limits: Limits, e: Event)
    requires Inv(s, limits)
    ensures Inv(Next(s, limits, e), limits)
  {
    if e.Reserve? {
      ReserveKeeps(s, limits, e.size);
    } else if e.Shutdown? || e.id !in s.held {
      NothingMoves(s, limits, e);
    } else {
      OneMoves(s, limits, e, e.id);
      hide Next, Balanced, Credits, CreditBytes;
      var n := Next(s, limits, e);
      CreditsMove(s.held, s.issued, e.id, n.held[e.id]);
      Minus(s.held[e.id].returned - n.held[e.id].returned, s.held[e.id].size);
    }
  }

  lemma {:induction false} Minus(moved: int, size: nat)
    ensures moved == 0 ==> moved * size == 0
    ensures moved == -1 ==> moved * size == 0 - size
  {
  }

  lemma {:induction false} NothingMoves(s: System, limits: Limits, e: Event)
    requires Inv(s, limits) && !e.Reserve? && (e.Shutdown? || e.id !in s.held)
    ensures Inv(Next(s, limits, e), limits)
  {
    hide Balanced, Credits, CreditBytes;
  }

  lemma {:induction false} Reachable(limits: Limits, es: seq<Event>)
    ensures Inv(Run(limits, es), limits)
  {
    if es != [] {
      hide Next, Inv;
      Reachable(limits, es[..|es| - 1]);
      StepKeeps(Run(limits, es[..|es| - 1]), limits, es[|es| - 1]);
    }
  }

  // The laws

  /** The reservations that have not been given back. */
  function Live(s: System): set<nat> {
    set id | id in s.held && s.held[id].returned == 0
  }

  function Doubled(s: System): set<nat> {
    set id | id in s.held && s.held[id].returned > 1
  }

  function Below(ids: set<nat>, n: nat): set<nat> {
    set id | id in ids && id < n
  }

  /** The bytes of some reservations. */
  function Bytes(held: map<nat, Reservation>, ids: set<nat>, n: nat): nat {
    if n == 0 then 0
    else Bytes(held, ids, n - 1) + (if n - 1 in held && n - 1 in ids then held[n - 1].size else 0)
  }

  lemma {:induction false} CreditsAreSets(s: System, n: nat)
    requires forall id | id in s.held :: Balanced(s.held[id])
    ensures Credits(s.held, n) == |Below(Live(s), n)| - |Below(Doubled(s), n)|
    ensures CreditBytes(s.held, n) == Bytes(s.held, Live(s), n) - Bytes(s.held, Doubled(s), n)
  {
    if n == 0 {
      assert Below(Live(s), 0) == {} && Below(Doubled(s), 0) == {};
    } else {
      CreditsAreSets(s, n - 1);
      BelowGrows(Live(s), n - 1);
      BelowGrows(Doubled(s), n - 1);
      if n - 1 in s.held {
        TwiceAtMost(s.held[n - 1]);
      }
    }
  }

  lemma {:induction false} BelowGrows(ids: set<nat>, n: nat)
    ensures |Below(ids, n + 1)| == |Below(ids, n)| + (if n in ids then 1 else 0)
  {
    assert Below(ids, n + 1) == if n in ids then Below(ids, n) + {n} else Below(ids, n);
  }

  lemma {:induction false} TwiceAtMost(r: Reservation)
    requires Balanced(r)
    ensures r.returned <= 2
  {
  }

  /** The reservations of which two releases have read the flag clear. */
  function Overlapped(s: System): set<nat> {
    set id | id in s.held && s.held[id].overlapped
  }

  /** No thread stands between reading a flag clear and giving the credit back. */
  predicate Resting(s: System) {
    forall id | id in s.held :: OwnerOwes(s.held[id]) == 0 && JobOwes(s.held[id]) == 0
  }

  lemma {:induction false} DoubledIsOverlapped(s: System)
    requires forall id | id in s.held :: Balanced(s.held[id])
    ensures Doubled(s) <= Overlapped(s) && (Resting(s) ==> Doubled(s) == Overlapped(s))
  {
  }

  /** Over every run, the pool's tasks and bytes are those of the live reservations less those given back
      twice, within the limits. Whenever no release is under way they are those of the live reservations
      if and only if no two releases of one reservation have overlapped; before, a release that overlaps
      may still have its credit to give back. */
  lemma {:induction false} CreditsAreConserved(limits: Limits, es: seq<Event>)
    ensures var s := Run(limits, es);
      && s.pool.tasks == |Live(s)| - |Doubled(s)| <= limits.tasks
      && s.pool.bytes == Bytes(s.held, Live(s), s.issued) - Bytes(s.held, Doubled(s), s.issued) <= limits.bytes
      && (s.pool.tasks == |Live(s)| && s.pool.bytes == Bytes(s.held, Live(s), s.issued) <==> Doubled(s) == {})
      && Doubled(s) <= Overlapped(s)
    ensures var s := Run(limits, es);
      Resting(s) ==>
        (s.pool.tasks == |Live(s)| && s.pool.bytes == Bytes(s.held, Live(s), s.issued) <==> Overlapped(s) == {})
  {
    hide Run, Balanced, Credits, CreditBytes, Overlapped, Resting;
    Reachable(limits, es);
    var s := Run(limits, es);
    DoubledIsOverlapped(s);
    CreditsAreSets(s, s.issued);
    assert Below(Live(s), s.issued) == Live(s) && Below(Doubled(s), s.issued) == Doubled(s);
    assert |Doubled(s)| == 0 <==> Doubled(s) == {};
    if Doubled(s) == {} {
      NoBytes(s.held, s.issued);
    }
  }

  lemma {:induction false} NoBytes(held: map<nat, Reservation>, n: nat)
    ensures Bytes(held, {}, n) == 0
  {
    if n > 0 {
      NoBytes(held, n - 1);
    }
  }

  /** However the releases interleave, a reservation with nobody left to release it was given back exactly
      once if and only if no two of them read the flag before either set it, and twice otherwise. */
  lemma {:induction false} ReleasedOnce(limits: Limits, es: seq<Event>, id: nat)
    ensures var s := Run(limits, es);
      id in s.held && Settled(s.held[id]) ==>
        && (s.held[id].returned == 1 <==> !s.held[id].overlapped)
        && (s.held[id].returned == 2 <==> s.held[id].overlapped)
  {
    hide Run, Credits, CreditBytes;
    Reachable(limits, es);
  }

  // A run whose releases overlap

  lemma {:induction false} Extend(limits: Limits, es: seq<Event>, e: Event) returns (more: seq<Event>)
    ensures Run(limits, more) == Next(Run(limits, es), limits, e)
  {
    hide Next;
    more := es + [e];
    assert more[..|more| - 1] == es;
  }

  const Served := Reservation(0, true, Gone, Finished, 1, false)

  function After(bytes: int, tasks: int, r: Reservation): System {
    System(Pool(bytes, tasks, false), map[0 := Served, 1 := r], 2, 1)
  }

  /** A first job brings up a thread. */
  lemma {:induction false} FirstJob(limits: Limits) returns (es: seq<Event>)
    requires limits.tasks > 0 && limits.workers > 0
    ensures Run(limits, es) == One(0, Served)
  {
    hide Run;
    assert Run(limits, []) == Start by {
      StartOfRun(limits);
    }
    es := Extend(limits, [], Reserve(0));
    es := Extend(limits, es, Submit(0, Takes(true)));
    assert Run(limits, es) == One(1, Reservation(0, false, Gone, Queued, 0, false));
    es := FirstJobEnds(limits, es);
  }

  function One(tasks: int, r: Reservation): System {
    System(Pool(0, tasks, false), map[0 := r], 1, 1)
  }

  lemma {:induction false} FirstJobEnds(limits: Limits, before: seq<Event>) returns (es: seq<Event>)
    requires Run(limits, before) == One(1, Reservation(0, false, Gone, Queued, 0, false))
    ensures Run(limits, es) == One(0, Served)
  {
    hide Run;
    assert Busy(Run(limits, before)) == {};
    es := Extend(limits, before, JobStep(0));
    assert Run(limits, es) == One(1, Reservation(0, false, Gone, Running, 0, false));
    es := Extend(limits, es, JobStep(0));
    assert Run(limits, es) == One(1, Reservation(0, false, Gone, Ending(AtFlag), 0, false));
    es := Extend(limits, es, JobStep(0));
    assert Run(limits, es) == One(1, Reservation(0, false, Gone, Ending(Saw(true)), 0, false));
    es := Extend(limits, es, JobStep(0));
    assert Run(limits, es) == One(1, Reservation(0, true, Gone, Ending(Owing), 0, false));
    es := Extend(limits, es, JobStep(0));
  }

  lemma {:induction false} StartOfRun(limits: Limits)
    ensures Run(limits, []) == Start
  {
  }

  /** The executor takes the second job and raises; owner and job both read the flag before either sets it. */
  lemma {:induction false} BothSeeClear(limits: Limits, before: seq<Event>) returns (es: seq<Event>)
    requires limits.tasks > 0 && limits.workers > 0
    requires Run(limits, before) == One(0, Served)
    ensures Run(limits, es) == After(limits.bytes, 1,
            Reservation(limits.bytes, false, Calling(1, Saw(true)), Ending(Saw(true)), 0, true))
  {
    hide Run;
    var size := limits.bytes;
    es := Extend(limits, before, Reserve(size));
    es := Extend(limits, es, Submit(1, TakesThenRaises));
    assert Run(limits, es) == After(size, 1, Reservation(size, false, Calling(1, AtFlag), Queued, 0, false));
    assert Busy(Run(limits, es)) == {};
    es := Extend(limits, es, JobStep(1));
    assert Run(limits, es) == After(size, 1, Reservation(size, false, Calling(1, AtFlag), Running, 0, false));
    es := Extend(limits, es, JobStep(1));
    es := Extend(limits, es, JobStep(1));
    assert Run(limits, es) == After(size, 1, Reservation(size, false, Calling(1, AtFlag), Ending(Saw(true)), 0, false));
    es := Extend(limits, es, OwnerStep(1));
  }

  /** Both give back; the owner's second call finds the flag set. */
  lemma {:induction false} BothGiveBack(limits: Limits, before: seq<Event>) returns (es: seq<Event>)
    requires Run(limits, before)
          == After(limits.bytes, 1, Reservation(limits.bytes, false, Calling(1, Saw(true)), Ending(Saw(true)), 0, true))
    ensures Run(limits, es) == After(0 - limits.bytes, 0 - 1, Reservation(limits.bytes, true, Gone, Finished, 2, true))
  {
    hide Run;
    es := Extend(limits, before, JobStep(1));
    es := Extend(limits, es, JobStep(1));
    assert Run(limits, es) == After(0, 0, Reservation(limits.bytes, true, Calling(1, Saw(true)), Finished, 1, true));
    es := Extend(limits, es, OwnerStep(1));
    assert Run(limits, es) == After(0, 0, Reservation(limits.bytes, true, Calling(1, Owing), Finished, 1, true));
    es := Extend(limits, es, OwnerStep(1));
    assert Run(limits, es) == After(0 - limits.bytes, 0 - 1,
        Reservation(limits.bytes, true, Calling(0, AtFlag), Finished, 2, true));
    es := Extend(limits, es, OwnerStep(1));
    es := Extend(limits, es, OwnerStep(1));
  }

  /** Whatever the limits, releases that overlap make the pool grant two reservations each of which fills it. */
  lemma {:induction false} OverlapOveradmits(limits: Limits) returns (es: seq<Event>)
    requires limits.tasks > 0 && limits.workers > 0
    ensures var s := Run(limits, es);
      && 2 in Live(s) && 3 in Live(s) && s.held[2].size == s.held[3].size == limits.bytes
      && 1 in Doubled(s)
  {
    hide Run;
    es := FirstJob(limits);
    es := BothSeeClear(limits, es);
    es := BothGiveBack(limits, es);
    es := Extend(limits, es, Reserve(limits.bytes));
    es := Extend(limits, es, Reserve(limits.bytes));
  }

  // The objects

  datatype Granted = Granted | Wait | TooLarge | Closed

  class HostPublicationPool {
    const byteLimit: nat
    const taskLimit: nat
    const workers: nat
    var bytes: int
    var tasks: int
    var peakBytes: int
    var closed: bool

    function TheLimits(): Limits {
      Limits(byteLimit, taskLimit, workers)
    }

    function View(): Pool
      reads this
    {
      Pool(bytes, tasks, closed)
    }

    ghost predicate Valid()
      reads this
    {
      byteLimit >= 1 && taskLimit >= 1 && bytes <= peakBytes <= byteLimit && tasks <= taskLimit
    }

    constructor (byteLimit: int, taskLimit: int, workers: nat)
      ensures Valid() && View() == Start.pool
      ensures this.byteLimit == (if byteLimit > 1 then byteLimit else 1)
      ensures this.taskLimit == (if taskLimit > 1 then taskLimit else 1)
    {
      this.byteLimit := if byteLimit > 1 then byteLimit else 1;
      this.taskLimit := if taskLimit > 1 then taskLimit else 1;
      this.workers := workers;
      bytes, tasks, peakBytes, closed := 0, 0, 0, false;
    }

    /** One turn of the reservation loop. */
    method TryReserve(size: int) returns (answer: Granted)
      requires Valid()
      modifies this
      ensures Valid()
      ensures answer.TooLarge? <==> !(0 <= size <= byteLimit)
      ensures answer.Closed? <==> 0 <= size <= byteLimit && old(closed)
      ensures answer.Granted? <==> Admissible(old(View()), TheLimits(), size)
      ensures answer.Granted? <==>
        0 <= size <= byteLimit && !old(closed) && old(bytes) + size <= byteLimit && old(tasks) < taskLimit
      ensures answer.Granted? ==> bytes == old(bytes) + size && tasks == old(tasks) + 1
      ensures View() == if answer.Granted? then Admit(old(View()), size) else old(View())
    {
      if !(0 <= size <= byteLimit) {
        return TooLarge;
      }
      if closed {
        return Closed;
      }
      if bytes + size > byteLimit || tasks >= taskLimit {
        return Wait;
      }
      bytes := bytes + size;
      tasks := tasks + 1;
      peakBytes := if peakBytes < bytes then bytes else peakBytes;
      answer := Granted;
    }

    /** Gives credit back, as often as it is asked to. */
    method Release(size: nat)
      requires Valid()
      modifies `bytes, `tasks
      ensures Valid() && View() == GiveBack(old(View()), size)
      ensures bytes == old(bytes) - size && tasks == old(tasks) - 1
    {
      bytes := bytes - size;
      tasks := tasks - 1;
    }

    method Shutdown()
      requires Valid()
      modifies `closed
      ensures Valid() && View() == old(View()).(closed := true)
    {
      closed := true;
    }
  }

  class HeldReservation {
    const pool: HostPublicationPool
    const size: nat
    var released: bool

    constructor (pool: HostPublicationPool, size: nat)
      ensures this.pool == pool && this.size == size && !released
    {
      this.pool, this.size, released := pool, size, false;
    }

    /** A release that no other one overlaps gives the credit back the first time only. */
    method Release()
      requires pool.Valid()
      modifies this, pool`bytes, pool`tasks
      ensures released && pool.Valid()
      ensures pool.View() == if old(released) then old(pool.View()) else GiveBack(old(pool.View()), size)
    {
      if !released {
        released := true;
        pool.Release(size);
      }
    }
  }
}
