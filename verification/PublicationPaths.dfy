/** The ways a publication attempt goes from its slot to the slot's return. */
module PublicationPaths {
  import opened Options
  import opened PublicationSlots

  /** One attempt as the queue sees it. */
  datatype Sight = Sight(attempt: Attempt, queue: Queue, open: bool, promised: int, granted: nat, released: nat,
                         threads: nat)

  function Look(s: System, t: nat): Sight {
    Sight(At(s, t), s.queue, t in s.open, s.promised, Count(s.granted, t), Count(s.released, t), s.threads)
  }

  // Getting a slot and a stage

  /** A slot is granted exactly when the queue is open and without an error and the limit allows one more. */
  lemma {:induction false} SlotIsGranted(s: System, b: Bounds, t: nat)
    requires At(s, t).caller.Asking?
    ensures var n := Next(s, b, Ask(t));
      if !s.queue.error && !s.queue.closed && s.queue.reserved + b.slot <= b.limit
      then Look(n, t) == Look(s, t).(attempt := At(s, t).(caller := Staging),
                                     queue := s.queue.(reserved := s.queue.reserved + b.slot,
                                                       staging := s.queue.staging + 1),
                                     granted := Count(s.granted, t) + 1)
      else Look(n, t) == Look(s, t).(attempt := if s.queue.error || s.queue.closed
                                                then At(s, t).(caller := Raised) else At(s, t))
  {
  }

  /** A stage that is there goes to RAM exactly when the headroom covers every promise made and its own, the whole
      slot and its pages, which is then promised. */
  lemma {:induction false} BackingOpens(s: System, b: Bounds, t: nat, headroom: nat)
    requires At(s, t).caller.Staging? && At(s, t).stage.Present? && t !in s.open
    ensures Look(Next(s, b, OpenBacking(t, headroom)), t)
         == if s.promised + b.slot + b.page <= headroom
            then Look(s, t).(open := true, promised := s.promised + b.slot + b.page) else Look(s, t)
  {
  }

  lemma {:induction false} StageIsMade(s: System, b: Bounds, t: nat)
    requires At(s, t).caller.Staging? && At(s, t).stage.Unmade?
    ensures Look(Next(s, b, MakeStage(t)), t) == Look(s, t).(attempt := At(s, t).(stage := Present))
  {
  }

  /** Its slot held, its stage made, its backing in RAM or on disk: ready to be handed over. */
  function Prepared(was: Sight, b: Bounds, ram: bool): Sight {
    was.(attempt := Attempt(Staging, NoJob, false, Present),
         queue := was.queue.(reserved := was.queue.reserved + b.slot, staging := was.queue.staging + 1),
         open := ram, promised := if ram then was.promised + b.slot + b.page else was.promised,
         granted := was.granted + 1)
  }

  lemma {:induction false} Prepares(s: System, b: Bounds, t: nat, headroom: nat)
    requires At(s, t) == Fresh && t !in s.open
    requires !s.queue.error && !s.queue.closed && s.queue.reserved + b.slot <= b.limit
    ensures Look(Next(Next(Next(s, b, Ask(t)), b, MakeStage(t)), b, OpenBacking(t, headroom)), t)
         == Prepared(Look(s, t), b, s.promised + b.slot + b.page <= headroom)
  {
    hide Next, At, Count;
    var s1 := Next(s, b, Ask(t));
    var s2 := Next(s1, b, MakeStage(t));
    SlotIsGranted(s, b, t);
    StageIsMade(s1, b, t);
    BackingOpens(s2, b, t, headroom);
  }

  // Giving the slot back

  /** What its promise comes to when its backing is closed. */
  function Closed(was: Sight, b: Bounds): Sight {
    was.(open := false, promised := if was.open then was.promised - b.slot - b.page else was.promised)
  }

  lemma {:induction false} BackingCloses(s: System, b: Bounds, t: nat)
    ensures Look(CloseBacking(s, b, t), t) == Closed(Look(s, t), b)
  {
  }

  /** A job without a thread of its own needs one that is there, and no more threads start than there may be. */
  lemma {:induction false} JobNeedsThread(s: System, b: Bounds, t: nat, starts: bool)
    requires if starts then s.threads >= b.workers else s.threads == 0
    ensures Next(s, b, Submit(t, Takes(starts))) == s
  {
  }

  lemma {:induction false} JobIsQueued(s: System, b: Bounds, t: nat, starts: bool)
    requires At(s, t).caller.Staging? && At(s, t).stage.Present? && !s.queue.closed
    requires if starts then s.threads < b.workers else s.threads > 0
    ensures Look(Next(s, b, Submit(t, Takes(starts))), t)
         == Look(s, t).(attempt := At(s, t).(caller := HandedOver, publisher := Queued),
                        queue := s.queue.(staging := s.queue.staging - 1),
                        threads := if starts then s.threads + 1 else s.threads)
  {
  }

  lemma {:induction false} PublisherEnds(s: System, b: Bounds, t: nat, failed: bool)
    requires At(s, t).publisher == Published(failed) && At(s, t).stage.Present?
    ensures var n := Next(Next(Next(s, b, PublisherRemoves(t, false)), b, PublisherRetires(t)), b,
                          PublisherReleases(t));
      Look(n, t) == Closed(Look(s, t), b)
                    .(attempt := At(s, t).(publisher := Finished, stage := Gone),
                      queue := s.queue.(reserved := s.queue.reserved - b.slot, error := s.queue.error || failed),
                      released := Count(s.released, t) + 1)
  {
    hide CloseBacking, Running;
    var s1 := Next(s, b, PublisherRemoves(t, false));
    var s2 := Next(s1, b, PublisherRetires(t));
    BackingCloses(s1, b, t);
    assert Look(s2, t) == Closed(Look(s1, t), b).(attempt := At(s1, t).(publisher := PublisherReleasing(failed)));
  }

  /** A job that a thread can take up gives back the slot and the promise, and the queue remembers its failure. */
  lemma {:induction false} JobReturnsSlot(s: System, b: Bounds, t: nat, fails: bool)
    requires At(s, t).publisher.Queued? && At(s, t).stage.Present? && |Running(s)| < s.threads
    ensures var n := Play(s, b, [Publish(t, fails), PublisherRemoves(t, false), PublisherRetires(t),
                                 PublisherReleases(t)]);
      Look(n, t) == Closed(Look(s, t), b)
                    .(attempt := At(s, t).(publisher := Finished, stage := Gone),
                      queue := s.queue.(reserved := s.queue.reserved - b.slot, error := s.queue.error || fails),
                      released := Count(s.released, t) + 1)
  {
    var s1 := Next(s, b, Publish(t, fails));
    assert Look(s1, t) == Look(s, t).(attempt := At(s, t).(publisher := Published(fails)));
    PublisherEnds(s1, b, t, fails);
    hide Next, Look, Closed, Running;
    PlayFour(s, b, Publish(t, fails), PublisherRemoves(t, false), PublisherRetires(t), PublisherReleases(t));
    ClosedFollows(s, s1, b, t);
  }

  /** A job waits while every thread is at work. */
  lemma {:induction false} JobWaits(s: System, b: Bounds, t: nat, fails: bool)
    requires |Running(s)| >= s.threads
    ensures Next(s, b, Publish(t, fails)) == s
  {
  }

  lemma {:induction false} ClosedFollows(s: System, s1: System, b: Bounds, t: nat)
    ensures forall a :: Look(s1, t) == Look(s, t).(attempt := a) ==>
              Closed(Look(s1, t), b) == Closed(Look(s, t), b).(attempt := a)
  {
  }

  lemma {:induction false} PlayFour(s: System, b: Bounds, e: Event, f: Event, g: Event, h: Event)
    ensures Play(s, b, [e, f, g, h]) == Next(Next(Next(Next(s, b, e), b, f), b, g), b, h)
  {
    hide Next;
    PlayOne(s, b, e, [f, g, h]);
    PlayOne(Next(s, b, e), b, f, [g, h]);
    PlayOne(Next(Next(s, b, e), b, f), b, g, [h]);
    PlayOne(Next(Next(Next(s, b, e), b, f), b, g), b, h, []);
    assert [e] + [f, g, h] == [e, f, g, h] && [f] + [g, h] == [f, g, h] && [g] + [h] == [g, h] && [h] + [] == [h];
  }

  /** A caller whose stage was made and whose removal works leaves nothing behind; one whose stage is too large
      goes on to stream it itself. */
  lemma {:induction false} CallerReturnsSlot(s: System, b: Bounds, t: nat, tooLarge: bool)
    requires At(s, t).caller == Removing(tooLarge) && At(s, t).stage.Present?
    ensures var n := Play(s, b, [CallerRemoves(t, false), CallerRetires(t), CallerLeaves(t), CallerReleases(t)]);
      Look(n, t) == Closed(Look(s, t), b)
                    .(attempt := At(s, t).(caller := if tooLarge then Streams else Raised, stage := Gone),
                      queue := s.queue.(reserved := s.queue.reserved - b.slot, staging := s.queue.staging - 1),
                      released := Count(s.released, t) + 1)
  {
    var s1 := Next(s, b, CallerRemoves(t, false));
    BackingCloses(s1, b, t);
    hide CloseBacking, Running;
    PlayFour(s, b, CallerRemoves(t, false), CallerRetires(t), CallerLeaves(t), CallerReleases(t));
  }

  /** A removal that fails leaves the stage, and is an error of the publisher, or keeps the caller from streaming. */
  lemma {:induction false} RemovalFails(s: System, b: Bounds, t: nat)
    ensures At(s, t).publisher.Published? ==>
      Look(Next(s, b, PublisherRemoves(t, true)), t)
      == Look(s, t).(attempt := At(s, t).(publisher := PublisherRetiring(true)))
    ensures At(s, t).caller.Removing? ==>
      Look(Next(s, b, CallerRemoves(t, true)), t) == Look(s, t).(attempt := At(s, t).(caller := Retiring(false)))
  {
    hide Running, CloseBacking;
  }

  /** A failed stage is removed by its caller when it was made, and has nothing to remove otherwise. */
  lemma {:induction false} FailedStageIsRemoved(s: System, b: Bounds, t: nat, tooLarge: bool)
    requires At(s, t).caller.Staging?
    ensures var a := At(s, t);
      Look(Next(s, b, StageFails(t, tooLarge)), t)
      == Look(s, t).(attempt := a.(caller := if a.stage.Unmade? then Retiring(tooLarge) else Removing(tooLarge)))
    ensures Look(Next(s, b, Submit(t, Refuses)), t)
         == if At(s, t).stage.Present? then Look(s, t).(attempt := At(s, t).(caller := Removing(false))) else Look(s, t)
  {
  }

  /** From a slot granted to the slot returned: however its stage was backed, an attempt that is published leaves
      the queue and the promises as they were before it asked. */
  lemma {:induction false} PublishedAttemptLeavesNothing(s: System, b: Bounds, t: nat, headroom: nat)
    requires At(s, t) == Fresh && t !in s.open && s.threads < b.workers
    requires !s.queue.error && !s.queue.closed && s.queue.reserved + b.slot <= b.limit
    ensures var ready := Next(Next(Next(Next(s, b, Ask(t)), b, MakeStage(t)), b, OpenBacking(t, headroom)), b,
                              Submit(t, Takes(true)));
      && At(ready, t).publisher.Queued?
      && (|Running(ready)| < ready.threads ==>
            Look(Play(ready, b, [Publish(t, false), PublisherRemoves(t, false), PublisherRetires(t),
                                 PublisherReleases(t)]), t)
            == Look(s, t).(attempt := Attempt(HandedOver, Finished, false, Gone), threads := s.threads + 1,
                           granted := Count(s.granted, t) + 1, released := Count(s.released, t) + 1))
  {
    hide Next, At, Running, Play;
    Prepares(s, b, t, headroom);
    var p := Next(Next(Next(s, b, Ask(t)), b, MakeStage(t)), b, OpenBacking(t, headroom));
    JobIsQueued(p, b, t, true);
    var ready := Next(p, b, Submit(t, Takes(true)));
    if |Running(ready)| < ready.threads {
      JobReturnsSlot(ready, b, t, false);
    }
  }
}
