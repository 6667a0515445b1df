/** The ways a reservation of the host pool goes from its grant to its return. */
module PoolPaths {
  import opened HostPool

  function Played(s: System, limits: Limits, es: seq<Event>): System
    decreases |es|
  {
    if es == [] then s else Played(Next(s, limits, es[0]), limits, es[1..])
  }

  lemma {:induction false} PlayedOne(s: System, limits: Limits, e: Event, rest: seq<Event>)
    ensures Played(s, limits, [e] + rest) == Played(Next(s, limits, e), limits, rest)
  {
    hide Next;
    assert ([e] + rest)[1..] == rest;
  }

  /** A reservation is granted exactly when its size is none or more, the pool is open, and bytes and tasks allow it. */
  lemma {:induction false} GrantedWhenItFits(s: System, limits: Limits, size: int)
    ensures var n := Next(s, limits, Reserve(size));
      if 0 <= size && !s.pool.closed && size <= limits.bytes && s.pool.bytes + size <= limits.bytes
         && s.pool.tasks + 1 <= limits.tasks
      then
        && n.pool == s.pool.(bytes := s.pool.bytes + size, tasks := s.pool.tasks + 1)
        && n.issued == s.issued + 1 && n.threads == s.threads
        && n.held == s.held[s.issued := Reservation(size, false, Capturing, NoJob, 0, false)]
      else n == s
  {
  }

  /** One release, undisturbed: it gives the credit back unless that has been done. */
  lemma {:induction false} OwnerGivesBack(s: System, limits: Limits, id: nat, left: nat)
    requires id in s.held && s.held[id].owner == Calling(left, AtFlag) && !s.held[id].raised
    requires s.held[id].job.NoJob?
    ensures var r := s.held[id];
            var n := Next(Next(Next(s, limits, OwnerStep(id)), limits, OwnerStep(id)), limits, OwnerStep(id));
      && n.held[id := r] == s.held && n.threads == s.threads && n.issued == s.issued
      && n.pool == s.pool.(bytes := s.pool.bytes - r.size, tasks := s.pool.tasks - 1)
      && id in n.held && n.held[id] == r.(raised := true, returned := r.returned + 1, owner := AfterCall(left))
  {
  }

  lemma {:induction false} OwnerFindsItDone(s: System, limits: Limits, id: nat, left: nat)
    requires id in s.held && s.held[id].owner == Calling(left, AtFlag) && s.held[id].raised
    ensures var r := s.held[id];
            var n := Next(Next(s, limits, OwnerStep(id)), limits, OwnerStep(id));
      && n.pool == s.pool && id in n.held && n.held[id] == r.(owner := AfterCall(left))
  {
  }

  /** A capture that fails, and one whose submission is refused, give back what they were granted, once. */
  lemma {:induction false} FailureReturnsCredit(s: System, limits: Limits, id: nat)
    requires id in s.held && s.held[id] == Reservation(s.held[id].size, false, Capturing, NoJob, 0, false)
    ensures var r, step := s.held[id], OwnerStep(id);
            var failed := Played(s, limits, [CaptureFails(id), step, step, step]);
            var refused := Played(s, limits, [Submit(id, Refuses), step, step, step, step, step]);
      && failed.pool == refused.pool == s.pool.(bytes := s.pool.bytes - r.size, tasks := s.pool.tasks - 1)
      && id in failed.held && failed.held[id] == Reservation(r.size, true, Gone, NoJob, 1, false)
      && id in refused.held && refused.held[id] == Reservation(r.size, true, Gone, NoJob, 1, false)
  {
    var step := OwnerStep(id);
    var f, u := Next(s, limits, CaptureFails(id)), Next(s, limits, Submit(id, Refuses));
    OwnerGivesBack(f, limits, id, 0);
    OwnerGivesBack(u, limits, id, 1);
    var u3 := Next(Next(Next(u, limits, step), limits, step), limits, step);
    OwnerFindsItDone(u3, limits, id, 0);
    assert AfterCall(0) == Gone && AfterCall(1) == Calling(0, AtFlag);
    hide Next, Played;
    PlayedFour(s, limits, CaptureFails(id), step);
    PlayedSix(s, limits, Submit(id, Refuses), step);
  }

  lemma {:induction false} PlayedFour(s: System, limits: Limits, e: Event, f: Event)
    ensures Played(s, limits, [e, f, f, f]) == Next(Next(Next(Next(s, limits, e), limits, f), limits, f), limits, f)
  {
    hide Next;
    PlayedOne(s, limits, e, [f, f, f]);
    PlayedThree(Next(s, limits, e), limits, f, []);
    assert [e] + [f, f, f] == [e, f, f, f] && [f, f, f] + [] == [f, f, f];
  }

  lemma {:induction false} PlayedThree(s: System, limits: Limits, f: Event, rest: seq<Event>)
    ensures Played(s, limits, [f, f, f] + rest)
         == Played(Next(Next(Next(s, limits, f), limits, f), limits, f), limits, rest)
  {
    hide Next;
    PlayedOne(s, limits, f, [f, f] + rest);
    PlayedOne(Next(s, limits, f), limits, f, [f] + rest);
    PlayedOne(Next(Next(s, limits, f), limits, f), limits, f, rest);
    assert [f] + ([f, f] + rest) == [f, f, f] + rest && [f] + ([f] + rest) == [f, f] + rest;
  }

  lemma {:induction false} PlayedSix(s: System, limits: Limits, e: Event, f: Event)
    ensures Played(s, limits, [e, f, f, f, f, f])
         == Next(Next(Next(Next(Next(Next(s, limits, e), limits, f), limits, f), limits, f), limits, f), limits, f)
  {
    hide Next;
    var n := Next(s, limits, e);
    PlayedOne(s, limits, e, [f, f, f, f, f]);
    PlayedThree(n, limits, f, [f, f]);
    var m := Next(Next(Next(n, limits, f), limits, f), limits, f);
    PlayedOne(m, limits, f, [f]);
    PlayedOne(Next(m, limits, f), limits, f, []);
    assert [e] + [f, f, f, f, f] == [e, f, f, f, f, f] && [f, f, f] + [f, f] == [f, f, f, f, f];
    assert [f] + [f] == [f, f] && [f] + [] == [f];
  }

  /** A job waits while every thread is at work. */
  lemma {:induction false} JobWaits(s: System, limits: Limits, id: nat)
    requires id in s.held && s.held[id].job.Queued? && |Busy(s)| >= s.threads
    ensures Next(s, limits, JobStep(id)) == s
  {
  }

  /** A job that a thread takes up gives the credit back when it is done, and only then. */
  lemma {:induction false} JobReturnsCredit(s: System, limits: Limits, id: nat, starts: bool)
    requires id in s.held && s.held[id] == Reservation(s.held[id].size, false, Capturing, NoJob, 0, false)
    requires if starts then s.threads < limits.workers else s.threads > 0
    ensures var queued := Next(s, limits, Submit(id, Takes(starts)));
      && queued.pool == s.pool && queued.threads == (if starts then s.threads + 1 else s.threads)
      && id in queued.held && queued.held[id].job == Queued && queued.held[id].owner == Gone
      && (|Busy(queued)| < queued.threads ==>
            var working := Next(queued, limits, JobStep(id));
            && working.pool == s.pool && id in working.held && working.held[id].job == Running
            && var done := Next(Next(Next(Next(working, limits, JobStep(id)), limits, JobStep(id)), limits,
                                     JobStep(id)),
                                limits, JobStep(id));
               && done.pool == s.pool.(bytes := s.pool.bytes - s.held[id].size, tasks := s.pool.tasks - 1)
               && id in done.held && done.held[id] == Reservation(s.held[id].size, true, Gone, Finished, 1, false))
  {
    hide Busy;
  }
}
