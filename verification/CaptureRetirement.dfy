/** A captured score source is borrowed by one reader and retired once. */
module CaptureRetirement {
  // The caller offers the source to a reader task. The task may be declined, run, be cancelled while
  // queued, or be left behind by a submission that raised; the submitter, the completion callback and
  // the reader itself all try to close it. Closing takes the retire callback under the lock and calls it
  // outside. The callback is one-shot and shared with the caller, whose own `finally` calls it again
  // whenever it holds no future.

  import opened Options

  datatype Reader =
    | Unqueued       // the task is in no pool's queue
    | Waiting        // queued
    | Reading        // inside the capture, the arrays in use
    | Leaving        // past the capture, on the way through close
    | Returned
    | Dropped        // cancelled or abandoned: it will never start

  datatype Caller =
    | Submitting
    | OwnReading               // declined: it captures the source itself
    | Raised                   // the submission raised
    | Joining                  // revoked, or waiting for the reader's event
    | Finally(failed: bool)    // about to retire the source itself; `failed` after a failed submission
    | Handed                   // it holds a future
    | Gone

  /** Who closes: the reader itself, the completion callback, or the submitter whose submission raised. */
  datatype Closer = TheReader | Callback | Submitter

  /** `held` while the retire callback is still the task's; `hands` holds whoever has taken it and not
      yet called it; `armed` until the one-shot has been called; `retired` counts what reaches the source. */
  datatype Task = Task(caller: Caller, started: bool, closed: bool, held: bool, hands: Option<Closer>, armed: bool,
                       retired: nat, finished: bool, reader: Reader)

  const Fresh := Task(Submitting, false, false, true, None, true, 0, false, Unqueued)

  datatype Event =
    | Enqueue               // the pool takes the task, inside the submission
    | Decline               // no task, or the queue refuses it
    | Fail                  // the caller fails before it submits, or while it reads
    | OwnReadEnds
    | SubmissionRaises
    | Accept                // the caller gets its future
    | Start                 // the reader's first section
    | Finish                // the capture returns or raises
    | Drop                  // a queued cancellation, or a pool that will never run it
    | Revoke                // the submitter's section after a failed submission
    | CallbackClose         // the callback of a finished wrapper
    | ReaderClose           // the reader's own close
    | Retire                // the taken callback is called
    | ReaderReturns
    | Joined                // the submitter has retired the source, or the event is set
    | CallerRetires

  /** Close, under the lock: the first closer takes the callback. */
  function Close(k: Task, who: Closer): Task {
    if k.closed then k else k.(closed := true, held := false, hands := Some(who))
  }

  /** A call of the shared one-shot: the first one reaches the source. */
  function Shot(k: Task): Task {
    if k.armed then k.(armed := false, retired := k.retired + 1) else k
  }

  /** The wrapper is over: its reader returned or will never start. */
  predicate WrapperOver(k: Task) {
    k.reader.Returned? || k.reader.Dropped?
  }

  function Next(k: Task, e: Event): Task {
    match e
    case Enqueue => if k.caller.Submitting? && k.reader.Unqueued? then k.(reader := Waiting) else k
    case Decline => if k.caller.Submitting? && k.reader.Unqueued? then k.(caller := OwnReading) else k
    case Fail =>
      if (k.caller.Submitting? && k.reader.Unqueued?) || k.caller.OwnReading? then k.(caller := Finally(false)) else k
    case OwnReadEnds => if k.caller.OwnReading? then k.(caller := Finally(false)) else k
    case SubmissionRaises => if k.caller.Submitting? then k.(caller := Raised) else k
    case Accept => if k.caller.Submitting? && !k.reader.Unqueued? then k.(caller := Handed) else k
    case Start =>
      if !k.reader.Waiting? then k
      else if k.closed then k.(reader := Returned)
      else k.(started := true, reader := Reading)
    case Finish => if k.reader.Reading? then k.(reader := Leaving) else k
    case Drop => if k.reader.Waiting? then k.(reader := Dropped) else k
    case Revoke =>
      if !k.caller.Raised? then k
      else if k.started then k.(caller := Joining)
      else Close(k, Submitter).(caller := Joining)
    case CallbackClose => if k.caller.Handed? && WrapperOver(k) then Close(k, Callback) else k
    case ReaderClose => if k.reader.Leaving? then Close(k, TheReader) else k
    case Retire => if k.hands.Some? then Shot(k).(hands := None, finished := true) else k
    case ReaderReturns =>
      if k.reader.Leaving? && k.closed && k.hands != Some(TheReader) then k.(reader := Returned) else k
    case Joined => if k.caller.Joining? && k.finished then k.(caller := Finally(true)) else k
    case CallerRetires => if k.caller.Finally? then Shot(k).(caller := Gone) else k
  }

  function Run(es: seq<Event>): Task {
    if es == [] then Fresh else Next(Run(es[..|es| - 1]), es[|es| - 1])
  }

  /** The callback is in one place: with the task, in one closer's hands, or called; and the caller calls
      the one-shot only where no reader can be at work. */
  ghost predicate Inv(k: Task) {
    && k.retired + (if k.armed then 1 else 0) == 1
    && (k.held <==> !k.closed) && (k.hands.Some? ==> k.closed)
    && (k.finished <==> k.closed && k.hands.None?)
    && (k.started <==> k.reader.Reading? || k.reader.Leaving? || (k.reader.Returned? && k.started))
    && (k.reader.Reading? ==> k.held)
    && (k.reader.Returned? ==> k.closed)
    && (k.hands == Some(TheReader) ==> k.reader.Leaving?)
    && (k.finished ==> !k.armed)
    && (!k.armed ==> k.finished || k.caller.Gone?)
    && Placed(k)
  }

  /** Where the task can be while the caller is where it is. */
  predicate Placed(k: Task) {
    match k.caller
    case Submitting => k.closed ==> k.started
    case Raised => k.closed ==> k.started
    case OwnReading => k.reader.Unqueued? && !k.closed
    case Joining => k.started || k.closed
    case Finally(failed) => if failed then k.finished else k.reader.Unqueued? && !k.closed
    case Handed => !k.reader.Unqueued?
    case Gone => !k.armed && (k.finished || (k.reader.Unqueued? && !k.closed))
  }

  lemma {:induction false} StepKeeps(k: Task, e: Event)
    requires Inv(k)
    ensures Inv(Next(k, e)) && Next(k, e).retired >= k.retired
  {
  }

  lemma {:induction false} Reachable(es: seq<Event>)
    ensures Inv(Run(es))
  {
    if es != [] {
      Reachable(es[..|es| - 1]);
      StepKeeps(Run(es[..|es| - 1]), es[|es| - 1]);
    }
  }

  /** Whatever the interleaving, the source is retired at most once, and it is neither retired nor in
      anyone's hands to be retired while the task's reader or the caller reads it. */
  lemma {:induction false} RetiredNeverWhileRead(es: seq<Event>)
    ensures Run(es).retired <= 1
    ensures Run(es).reader.Reading? || Run(es).caller.OwnReading? ==> Run(es).retired == 0 && Run(es).hands == None
    ensures !(Run(es).reader.Reading? && Run(es).caller.OwnReading?)
  {
    Reachable(es);
  }

  /** No event changes anything any more. */
  ghost predicate Settled(k: Task) {
    forall e :: Next(k, e) == k
  }

  /** A run that is over has retired the source, exactly once, whoever did it: the caller, the reader, the
      callback or the submitter. */
  lemma {:induction false} RetiredExactlyOnce(es: seq<Event>)
    ensures Settled(Run(es)) ==> Run(es).retired == 1 && (Run(es).caller.Gone? || Run(es).caller.Handed?)
    ensures Run(es).finished ==> Run(es).retired == 1
  {
    Reachable(es);
    var k := Run(es);
    hide Run;
    if Settled(k) {
      assert Next(k, Decline) == k && Next(k, Accept) == k && Next(k, OwnReadEnds) == k && Next(k, Revoke) == k;
      assert Next(k, Joined) == k && Next(k, CallerRetires) == k && Next(k, Retire) == k && Next(k, CallbackClose) == k;
      assert Next(k, Start) == k && Next(k, Finish) == k && Next(k, ReaderClose) == k && Next(k, ReaderReturns) == k;
    }
  }

  /** The caller's own call after a failed submission is always the second one: the source is retired
      already, its reader is not at work, and the call changes nothing. Without a task it is the first. */
  lemma {:induction false} CallersRetirement(es: seq<Event>)
    requires Run(es).caller.Finally?
    ensures !Run(es).reader.Reading?
    ensures Run(es).caller.failed ==> Run(es).retired == 1
    ensures !Run(es).caller.failed ==> Run(es).retired == 0
    ensures Next(Run(es), CallerRetires).retired == 1
  {
    Reachable(es);
  }

  /** A failed submission revokes a task that has not started: a wrapper left in the pool's queue then
      finds it closed and never reads. A task that has started is left to its reader. */
  lemma {:induction false} RevokedNeverReads(k: Task, es: seq<Event>)
    requires Inv(k) && k.caller.Raised? && !k.started
    ensures Inv(RunFrom(Next(k, Revoke), es))
    ensures !RunFrom(Next(k, Revoke), es).reader.Reading? && RunFrom(Next(k, Revoke), es).closed
  {
    if es == [] {
      StepKeeps(k, Revoke);
    } else {
      RevokedNeverReads(k, es[..|es| - 1]);
      StepKeeps(RunFrom(Next(k, Revoke), es[..|es| - 1]), es[|es| - 1]);
    }
  }

  function RunFrom(k: Task, es: seq<Event>): Task {
    if es == [] then k else Next(RunFrom(k, es[..|es| - 1]), es[|es| - 1])
  }

  /** A started task that the submitter joins: its event is set by the one retirement, after the
      reader has stopped. */
  lemma {:induction false} JoinWaitsForReader(es: seq<Event>)
    ensures Run(es).finished ==> !Run(es).reader.Reading? && Run(es).retired == 1
  {
    Reachable(es);
  }

  /** The one-shot that the caller and the reader share; `retired` counts the calls that reach the source. */
  class ConfidenceSourceRetirement {
    var armed: bool
    var retired: nat

    ghost predicate Valid()
      reads this
    {
      retired == if armed then 0 else 1
    }

    constructor ()
      ensures Valid() && armed
    {
      armed, retired := true, 0;
    }

    /** The first call retires the source; any other does nothing. */
    method Call()
      requires Valid()
      modifies this
      ensures Valid() && !armed && retired == 1
    {
      var mine := armed;
      armed := false;
      if mine {
        retired := retired + 1;
      }
    }
  }

  class RetiringConfidenceCapture {
    const source: ConfidenceSourceRetirement
    var started: bool
    var closed: bool
    var retire: ConfidenceSourceRetirement?
    var finished: bool

    ghost predicate Valid()
      reads this, source
    {
      source.Valid() && retire == (if closed then null else source) && (finished ==> closed)
    }

    constructor (source: ConfidenceSourceRetirement)
      requires source.Valid()
      ensures Valid() && this.source == source && !started && !closed && !finished
    {
      this.source := source;
      started, closed, finished := false, false, false;
      retire := source;
    }

    /** The reader's first section: false when the task was revoked. */
    method Begin() returns (run: bool)
      requires Valid()
      modifies `started
      ensures Valid() && run == !closed && started == (old(started) || run)
    {
      if closed {
        return false;
      }
      started := true;
      run := true;
    }

    /** The section of close: the first closer takes the callback. */
    method TakeCallback() returns (taken: ConfidenceSourceRetirement?)
      requires Valid()
      modifies `closed, `retire
      ensures Valid() && closed
      ensures taken == if old(closed) then null else source
    {
      if closed {
        return null;
      }
      closed := true;
      taken := retire;
      retire := null;
    }

    /** Close: the closer that took the callback retires the source, and sets the event. */
    method Close()
      requires Valid()
      modifies this, source
      ensures Valid() && closed && started == old(started)
      ensures old(closed) ==> source.retired == old(source.retired) && source.armed == old(source.armed)
      ensures old(closed) ==> finished == old(finished)
      ensures !old(closed) ==> finished && source.retired == 1
    {
      if closed {
        return;
      }
      var taken := TakeCallback();
      if taken != null {
        taken.Call();
      }
      finished := true;
    }

    /** After a submission that raised: revokes a task that has not started; true when the caller must
        join its reader instead. */
    method RevokeOrJoin() returns (join: bool)
      requires Valid()
      modifies this, source
      ensures Valid() && join == old(started) && started == old(started)
      ensures join || old(closed) ==> closed == old(closed) && finished == old(finished)
      ensures join || old(closed) ==> source.retired == old(source.retired) && source.armed == old(source.armed)
      ensures !join && !old(closed) ==> closed && finished && source.retired == 1
    {
      join := started;
      if !join {
        Close();
      }
    }
  }
}
