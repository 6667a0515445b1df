/** Every captured source comes to rest, and each way there is open. */
module RetirementPaths {
  import opened Options
  import opened CaptureRetirement

  // Coming to rest

  function CallerLeft(c: Caller): nat {
    match c
    case Submitting => 6
    case OwnReading => 5
    case Raised => 4
    case Joining => 3
    case Finally(_) => 2
    case Handed => 1
    case Gone => 0
  }

  function ReaderLeft(r: Reader): nat {
    match r
    case Unqueued => 4
    case Waiting => 3
    case Reading => 2
    case Leaving => 1
    case Returned => 0
    case Dropped => 0
  }

  function Left(k: Task): nat {
    CallerLeft(k.caller) + ReaderLeft(k.reader) + (if k.closed then 0 else 2) + (if k.hands.Some? then 1 else 0)
  }

  lemma {:induction false} EventSpends(k: Task, e: Event)
    requires Inv(k)
    ensures Next(k, e) == k || Left(Next(k, e)) < Left(k)
  {
  }

  lemma {:induction false} Then(es: seq<Event>, e: Event)
    ensures Run(es + [e]) == Next(Run(es), e)
  {
    assert (es + [e])[..|es + [e]| - 1] == es;
  }

  lemma {:induction false} RunsOn(es: seq<Event>, later: seq<Event>)
    ensures Run(es + later) == RunFrom(Run(es), later)
  {
    if later == [] {
      assert es + later == es;
    } else {
      var init, last := later[..|later| - 1], later[|later| - 1];
      RunsOn(es, init);
      Then(es + init, last);
      assert es + later == es + init + [last];
    }
  }

  /** From every reachable state no more than a dozen events bring the run to rest, and a run at rest has retired
      its source. */
  lemma {:induction false} EveryRunCanSettle(es: seq<Event>) returns (later: seq<Event>)
    ensures |later| <= Left(Run(es)) <= 12 && Settled(Run(es + later)) && Run(es + later).retired == 1
    decreases Left(Run(es))
  {
    var k := Run(es);
    Reachable(es);
    if Settled(k) {
      later := [];
      assert es + later == es;
      RetiredExactlyOnce(es);
    } else {
      hide Run, Next, Inv;
      var e :| Next(k, e) != k;
      EventSpends(k, e);
      Then(es, e);
      var rest := EveryRunCanSettle(es + [e]);
      later := [e] + rest;
      assert es + later == es + [e] + rest;
    }
  }

  // The ways there

  /** The caller got its future before the reader began: the reader captures the source and retires it. */
  lemma {:induction false} ReaderRetires(k: Task)
    requires k.caller.Submitting? && k.reader.Unqueued? && !k.closed && k.armed && k.hands == None
    ensures var reading := Next(Next(Next(k, Enqueue), Accept), Start);
      && reading == k.(caller := Handed, reader := Reading, started := true)
      && Next(Next(Next(Next(reading, Finish), ReaderClose), Retire), ReaderReturns)
         == reading.(reader := Returned, closed := true, held := false, armed := false, finished := true,
                     retired := k.retired + 1)
  {
  }

  /** A queued task that is dropped leaves the source to the callback of its future. */
  lemma {:induction false} CallbackRetires(k: Task)
    requires k.caller.Submitting? && k.reader.Unqueued? && !k.closed && k.armed && k.hands == None
    ensures Next(Next(Next(Next(Next(k, Enqueue), Accept), Drop), CallbackClose), Retire)
         == k.(caller := Handed, reader := Dropped, closed := true, held := false, armed := false, finished := true,
               retired := k.retired + 1)
  {
  }

  /** Without a task the caller reads the source itself and then retires it, also when it fails before or while it
      reads. */
  lemma {:induction false} CallerRetiresOwn(k: Task)
    requires k.caller.Submitting? && k.reader.Unqueued? && k.armed
    ensures var retired := k.(caller := Gone, armed := false, retired := k.retired + 1);
      && Next(k, Decline) == k.(caller := OwnReading)
      && Next(Next(Next(k, Decline), OwnReadEnds), CallerRetires) == retired
      && Next(Next(Next(k, Decline), Fail), CallerRetires) == retired
      && Next(Next(k, Fail), CallerRetires) == retired
  {
  }

  /** A submission that raised before the reader began: the submitter closes and retires, and the reader finds the
      capture closed and does not read. */
  lemma {:induction false} SubmitterRetires(k: Task)
    requires k.caller.Submitting? && k.reader.Unqueued? && !k.closed && !k.started && k.armed && k.hands == None
             && !k.finished
    ensures var revoked := Next(Next(Next(k, Enqueue), SubmissionRaises), Revoke);
      && revoked == k.(caller := Joining, reader := Waiting, closed := true, held := false, hands := Some(Submitter))
      && Next(revoked, Joined) == revoked
      && Next(Next(Next(Next(revoked, Retire), Joined), CallerRetires), Start)
         == revoked.(caller := Gone, reader := Returned, hands := None, finished := true, armed := false,
                     retired := k.retired + 1)
  {
  }

  /** In every run: once a submission has raised before its reader began and has been revoked, nothing that happens
      later makes the reader read. */
  lemma {:induction false} RevokedStaysRevoked(es: seq<Event>, later: seq<Event>)
    requires Run(es).caller.Raised? && !Run(es).started
    ensures !Run(es + [Revoke] + later).reader.Reading? && !Run(es + [Revoke] + later).started
  {
    Reachable(es);
    RevokedNeverReads(Run(es), later);
    Then(es, Revoke);
    RunsOn(es + [Revoke], later);
    Reachable(es + [Revoke] + later);
    NeverStarts(Next(Run(es), Revoke), later);
    hide Run, RunFrom;
  }

  lemma {:induction false} NeverStarts(k: Task, later: seq<Event>)
    requires k.closed && !k.started
    ensures RunFrom(k, later).closed && !RunFrom(k, later).started
  {
    if later != [] {
      NeverStarts(k, later[..|later| - 1]);
    }
  }

  /** A submission that raised after the reader began waits for the reader, which retires the source. */
  lemma {:induction false} SubmitterWaits(k: Task)
    requires k.caller.Submitting? && k.reader.Unqueued? && !k.closed && !k.started && k.armed && k.hands == None
             && !k.finished
    ensures var joining := Next(Next(Next(Next(k, Enqueue), Start), SubmissionRaises), Revoke);
      && joining == k.(caller := Joining, reader := Reading, started := true)
      && Next(joining, Joined) == joining
      && Next(Next(Next(Next(Next(joining, Finish), ReaderClose), Retire), Joined), CallerRetires)
         == joining.(caller := Gone, reader := Leaving, closed := true, held := false, finished := true,
                     armed := false, retired := k.retired + 1)
  {
  }
}
