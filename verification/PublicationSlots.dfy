/** The bounded publication queue under arbitrary interleaving. */
module PublicationSlots {
  // A caller reserves a slot, stages a store in it, and hands the stage to a publisher thread. The
  // publisher gives the slot back when it is done; a caller that fails before the hand-over gives it
  // back itself. Both remove the stage's directory first, and removing one that is gone fails. Every
  // section that runs under one lock is one step.

  import opened Options

  /** How the executor answers: it takes the job, starting a thread for it or not, refuses it, or takes
      it and then raises, because it could not start another thread or because it was interrupted. */
  datatype Answer = Takes(starts: bool) | Refuses | TakesThenRaises

  /** The directory of the stage. */
  datatype Stage = Unmade | Present | Gone

  datatype Caller =
    | Asking
    | Staging                 // holds a slot; making directories, the backing, and the store
    | Removing(tooLarge: bool)    // failed: the stage goes first,
    | Retiring(tooLarge: bool)    // then the backing,
    | Leaving(tooLarge: bool)     // then the count of stages in work,
    | Releasing(tooLarge: bool)   // then the slot
    | Streams                 // returned without a future: the caller streams the large stage itself
    | Raised
    | HandedOver

  datatype Publisher =
    | NoJob
    | Queued
    | Published(failed: bool)     // done publishing; the stage goes first,
    | PublisherRetiring(failed: bool)   // then the backing,
    | PublisherReleasing(failed: bool)
    | Finished

  datatype Attempt = Attempt(caller: Caller, publisher: Publisher, split: bool, stage: Stage)

  const Fresh := Attempt(Asking, NoJob, false, Unmade)

  /** `slot` and `limit` are the queue's bounds, `page` the allowance added to a slot held in RAM, and
      `workers` the most threads the executor starts. */
  datatype Bounds = Bounds(slot: nat, limit: nat, page: nat, workers: nat)

  predicate ValidBounds(b: Bounds) {
    b.slot > 0 && b.limit >= b.slot && b.workers > 0
  }

  datatype Queue = Queue(reserved: int, staging: int, error: bool, closed: bool)

  /** `open` are the attempts whose RAM backing is open; `promised` is the process-wide promise.
      `granted` and `released` count, per attempt, the slots given and given back. `threads` are the
      executor's threads so far. */
  datatype System = System(queue: Queue, attempts: map<nat, Attempt>, open: set<nat>, promised: int,
                           granted: map<nat, nat>, released: map<nat, nat>, threads: nat)

  const Start := System(Queue(0, 0, false, false), map[], {}, 0, map[], map[], 0)

  datatype Event =
    | Ask(t: nat)
    | MakeStage(t: nat)
    | OpenBacking(t: nat, headroom: nat)
    | StageFails(t: nat, tooLarge: bool)
    | Submit(t: nat, answer: Answer)
    | CallerRemoves(t: nat, fails: bool)
    | CallerRetires(t: nat)
    | CallerLeaves(t: nat)
    | CallerReleases(t: nat)
    | Publish(t: nat, fails: bool)
    | PublisherRemoves(t: nat, fails: bool)
    | PublisherRetires(t: nat)
    | PublisherReleases(t: nat)
    | Close

  function At(s: System, t: nat): Attempt {
    if t in s.attempts then s.attempts[t] else Fresh
  }

  function Count(m: map<nat, nat>, t: nat): nat {
    if t in m then m[t] else 0
  }

  function Become(s: System, t: nat, a: Attempt): System {
    s.(attempts := s.attempts[t := a])
  }

  // The sections under the queue's lock

  predicate Admissible(q: Queue, b: Bounds) {
    !q.error && !q.closed && q.reserved + b.slot <= b.limit
  }

  function Admit(q: Queue, b: Bounds): Queue {
    q.(reserved := q.reserved + b.slot, staging := q.staging + 1)
  }

  function Leave(q: Queue): Queue {
    q.(staging := q.staging - 1)
  }

  function Release(q: Queue, b: Bounds, failed: bool): Queue {
    q.(reserved := q.reserved - b.slot, error := q.error || failed)
  }

  /** Closing a backing gives its promise back the first time, and does nothing after. */
  function CloseBacking(s: System, b: Bounds, t: nat): System {
    if t in s.open then s.(open := s.open - {t}, promised := s.promised - (b.slot + b.page)) else s
  }

  /** The attempts whose job a thread is carrying out. */
  function Running(s: System): set<nat> {
    set t | t in s.attempts && var p := s.attempts[t].publisher;
            p.Published? || p.PublisherRetiring? || p.PublisherReleasing?
  }

  /** Can the executor answer that way? A job without a thread of its own needs one that is there. */
  predicate Possible(s: System, b: Bounds, answer: Answer) {
    match answer
    case Refuses => true
    case Takes(starts) => if starts then s.threads < b.workers else s.threads > 0
    case TakesThenRaises => true
  }

  /** What a failed caller does first: a stage that was made is removed. */
  function Failing(a: Attempt, tooLarge: bool): Attempt {
    a.(caller := if a.stage.Unmade? then Retiring(tooLarge) else Removing(tooLarge))
  }

  function GiveBack(s: System, b: Bounds, t: nat, failed: bool): System {
    s.(queue := Release(s.queue, b, failed), released := s.released[t := Count(s.released, t) + 1])
  }

  function Next(s: System, b: Bounds, e: Event): System {
    match e
    case Ask(t) =>
      var a := At(s, t);
      if !a.caller.Asking? then s
      else if s.queue.error || s.queue.closed then Become(s, t, a.(caller := Raised))
      else if !Admissible(s.queue, b) then s
      else
        Become(s, t, a.(caller := Staging))
        .(queue := Admit(s.queue, b), granted := s.granted[t := Count(s.granted, t) + 1])
    case MakeStage(t) =>
      var a := At(s, t);
      if a.caller.Staging? && a.stage.Unmade? then Become(s, t, a.(stage := Present)) else s
    case OpenBacking(t, headroom) =>
      if At(s, t).caller.Staging? && At(s, t).stage.Present? && t !in s.open && headroom >= s.promised + b.slot + b.page
      then s.(open := s.open + {t}, promised := s.promised + b.slot + b.page)
      else s
    case StageFails(t, tooLarge) =>
      var a := At(s, t);
      if a.caller.Staging? then Become(s, t, Failing(a, tooLarge)) else s
    case Submit(t, answer) =>
      var a := At(s, t);
      if !a.caller.Staging? || !a.stage.Present? || !Possible(s, b, answer) then s
      else if s.queue.closed || answer.Refuses? then Become(s, t, Failing(a, false))
      else if answer.Takes? then
        Become(s, t, a.(caller := HandedOver, publisher := Queued))
        .(queue := Leave(s.queue), threads := if answer.starts then s.threads + 1 else s.threads)
      else Become(s, t, Attempt(Removing(false), Queued, true, Present))
    case CallerRemoves(t, fails) =>
      var a := At(s, t);
      if a.caller.Removing? then
        Become(s, t, a.(caller := Retiring(a.caller.tooLarge && !fails && a.stage.Present?),
                        stage := if fails then a.stage else Gone))
      else s
    case CallerRetires(t) =>
      var a := At(s, t);
      if a.caller.Retiring? then Become(CloseBacking(s, b, t), t, a.(caller := Leaving(a.caller.tooLarge))) else s
    case CallerLeaves(t) =>
      var a := At(s, t);
      if a.caller.Leaving? then Become(s, t, a.(caller := Releasing(a.caller.tooLarge))).(queue := Leave(s.queue))
      else s
    case CallerReleases(t) =>
      var a := At(s, t);
      if a.caller.Releasing? then
        GiveBack(Become(s, t, a.(caller := if a.caller.tooLarge then Streams else Raised)), b, t, false)
      else s
    case Publish(t, fails) =>
      var a := At(s, t);
      if a.publisher.Queued? && |Running(s)| < s.threads then Become(s, t, a.(publisher := Published(fails))) else s
    case PublisherRemoves(t, fails) =>
      var a := At(s, t);
      if a.publisher.Published? then
        Become(s, t, a.(publisher := PublisherRetiring(a.publisher.failed || fails || !a.stage.Present?),
                        stage := if fails then a.stage else Gone))
      else s
    case PublisherRetires(t) =>
      var a := At(s, t);
      if a.publisher.PublisherRetiring? then
        Become(CloseBacking(s, b, t), t, a.(publisher := PublisherReleasing(a.publisher.failed)))
      else s
    case PublisherReleases(t) =>
      var a := At(s, t);
      if a.publisher.PublisherReleasing? then
        GiveBack(Become(s, t, a.(publisher := Finished)), b, t, a.publisher.failed)
      else s
    case Close => s.(queue := s.queue.(closed := true))
  }

  function Run(b: Bounds, es: seq<Event>): System {
    if es == [] then Start else Next(Run(b, es[..|es| - 1]), b, es[|es| - 1])
  }

  // The accounts of one attempt

  function CallerOwes(a: Attempt): nat {
    if InStaging(a) || a.caller.Releasing? then 1 else 0
  }

  function PublisherOwes(a: Attempt): nat {
    if a.publisher.NoJob? || a.publisher.Finished? then 0 else 1
  }

  function Owes(a: Attempt): nat {
    CallerOwes(a) + PublisherOwes(a)
  }

  predicate InStaging(a: Attempt) {
    a.caller.Staging? || a.caller.Removing? || a.caller.Retiring? || a.caller.Leaving?
  }

  predicate Over(a: Attempt) {
    (a.caller.Streams? || a.caller.Raised? || a.caller.HandedOver?) && (a.publisher.NoJob? || a.publisher.Finished?)
  }

  /** A slot is given at most once; it is owed back by whoever holds it, and by both the caller and
      the publisher when the executor took the job and raised. */
  ghost predicate Balanced(s: System, t: nat) {
    var a := At(s, t);
    && Count(s.granted, t) <= 1
    && (a.caller.Asking? ==> Count(s.granted, t) == 0)
    && Count(s.released, t) + Owes(a) == Count(s.granted, t) + (if a.split then 1 else 0)
    && (a.split ==> Count(s.granted, t) == 1)
    && (t in s.open ==> Owes(a) > 0 && !a.caller.Asking?)
    && (a.caller.Asking? || a.caller.Staging? ==> a.publisher.NoJob?)
    && (a.publisher.NoJob? ==> !a.split && !a.caller.HandedOver?)
    && (!a.split ==> (a.publisher.NoJob? || a.caller.HandedOver?))
    && (t in s.open && !a.split ==>
          || a.caller.Staging? || a.caller.Removing? || a.caller.Retiring?
          || a.publisher.Queued? || a.publisher.Published? || a.publisher.PublisherRetiring?)
    && (t in s.open && a.split ==> a.caller.Removing? || a.caller.Retiring?)
  }

  ghost predicate Inv(s: System) {
    forall t: nat :: Balanced(s, t)
  }

  function Target(e: Event): Option<nat> {
    match e
    case Close => None
    case Ask(t) => Some(t)
    case MakeStage(t) => Some(t)
    case OpenBacking(t, _) => Some(t)
    case StageFails(t, _) => Some(t)
    case Submit(t, _) => Some(t)
    case CallerRemoves(t, _) => Some(t)
    case CallerRetires(t) => Some(t)
    case CallerLeaves(t) => Some(t)
    case CallerReleases(t) => Some(t)
    case Publish(t, _) => Some(t)
    case PublisherRemoves(t, _) => Some(t)
    case PublisherRetires(t) => Some(t)
    case PublisherReleases(t) => Some(t)
  }

  /** A step touches one attempt. */
  lemma {:induction false} OthersStay(s: System, b: Bounds, e: Event, u: nat)
    requires Target(e) != Some(u)
    ensures var n := Next(s, b, e);
      && At(n, u) == At(s, u) && (u in n.open <==> u in s.open)
      && Count(n.granted, u) == Count(s.granted, u) && Count(n.released, u) == Count(s.released, u)
  {
  }

  lemma {:induction false} OwnStays(s: System, b: Bounds, e: Event, t: nat)
    requires Target(e) == Some(t) && Balanced(s, t)
    ensures Balanced(Next(s, b, e), t)
  {
    hide Running, Possible;
  }

  lemma {:induction false} StepBalanced(s: System, b: Bounds, e: Event)
    requires Inv(s)
    ensures Inv(Next(s, b, e))
  {
    hide Next, Balanced;
    forall u: nat
      ensures Balanced(Next(s, b, e), u)
    {
      assert Balanced(s, u);
      if Target(e) == Some(u) {
        OwnStays(s, b, e, u);
      } else {
        OthersStay(s, b, e, u);
        SameBalance(s, Next(s, b, e), u);
      }
    }
  }

  lemma {:induction false} SameBalance(s: System, n: System, u: nat)
    requires Balanced(s, u) && At(n, u) == At(s, u) && (u in n.open <==> u in s.open)
    requires Count(n.granted, u) == Count(s.granted, u) && Count(n.released, u) == Count(s.released, u)
    ensures Balanced(n, u)
  {
  }

  // The totals

  function Live(s: System): set<nat> {
    set t | t in s.attempts && Owes(s.attempts[t]) > 0
  }

  function InWork(s: System): set<nat> {
    set t | t in s.attempts && InStaging(s.attempts[t])
  }

  /** The attempts whose slot has been given back once too often for what they still owe. */
  function Overdrawn(s: System): set<nat> {
    set t | t in s.attempts && s.attempts[t].split && Owes(s.attempts[t]) <= 1
  }

  /** What one attempt holds of the reserved slots. */
  function Share(a: Attempt): int {
    (if Owes(a) > 0 then 1 else 0) - (if a.split && Owes(a) <= 1 then 1 else 0)
  }

  /** The counters agree with the attempts: the reserved bytes fall behind the live slots by one slot
      for every attempt that is overdrawn. */
  ghost predicate Counted(s: System, b: Bounds) {
    && s.queue.staging == |InWork(s)|
    && s.promised == |s.open| * (b.slot + b.page)
    && s.queue.reserved == (|Live(s)| - |Overdrawn(s)|) * b.slot
    && s.queue.reserved <= b.limit
  }

  lemma {:induction false} FreshOwesNothing()
    ensures Owes(Fresh) == 0 && !InStaging(Fresh) && !Fresh.split
  {
  }

  /** How a step moves one attempt in and out of the live ones and the ones in work. */
  lemma {:induction false} SetsMove(s: System, b: Bounds, e: Event, t: nat)
    requires Target(e) == Some(t)
    ensures var n := Next(s, b, e);
      && Live(n) == (if Owes(At(n, t)) > 0 then Live(s) + {t} else Live(s) - {t})
      && InWork(n) == (if InStaging(At(n, t)) then InWork(s) + {t} else InWork(s) - {t})
      && Overdrawn(n) == (if At(n, t).split && Owes(At(n, t)) <= 1 then Overdrawn(s) + {t} else Overdrawn(s) - {t})
  {
    hide Next, Owes, InStaging;
    var n := Next(s, b, e);
    FreshOwesNothing();
    forall u: nat
      ensures u in Overdrawn(n) <==> if u == t then At(n, t).split && Owes(At(n, t)) <= 1 else u in Overdrawn(s)
      ensures u in Live(n) <==> if u == t then Owes(At(n, t)) > 0 else u in Live(s)
      ensures u in InWork(n) <==> if u == t then InStaging(At(n, t)) else u in InWork(s)
    {
      if u != t {
        OthersStay(s, b, e, u);
      }
    }
  }

  /** The promise stays, or moves by one backing with its attempt. */
  predicate PromiseMoves(s: System, n: System, b: Bounds, t: nat) {
    || (n.open == s.open && n.promised == s.promised)
    || (t !in s.open && n.open == s.open + {t} && n.promised == s.promised + (b.slot + b.page))
    || (t in s.open && n.open == s.open - {t} && n.promised == s.promised - (b.slot + b.page))
  }

  /** The reserved bytes and the share of the attempt stay, or move together by one slot. */
  predicate Moves(was: int, now: int, share: int, share': int, slot: nat) {
    || (now == was && share' == share)
    || (now == was + slot && share' == share + 1)
    || (now == was - slot && share' == share - 1)
  }

  /** What one step does to the queue's counters, by what it does to its attempt. */
  lemma {:induction false} StagingMoves(s: System, b: Bounds, e: Event, t: nat)
    requires Target(e) == Some(t)
    ensures var n := Next(s, b, e);
      n.queue.staging
      == s.queue.staging + (if InStaging(At(n, t)) then 1 else 0) - (if InStaging(At(s, t)) then 1 else 0)
  {
  }

  lemma {:induction false} ReservedMoves(s: System, b: Bounds, e: Event, t: nat)
    requires Target(e) == Some(t) && Balanced(s, t)
    ensures var n := Next(s, b, e);
      && Moves(s.queue.reserved, n.queue.reserved, Share(At(s, t)), Share(At(n, t)), b.slot)
      && (n.queue.reserved > s.queue.reserved ==> n.queue.reserved <= b.limit)
  {
    hide Running, Possible;
  }

  lemma {:induction false} BackingMoves(s: System, b: Bounds, e: Event, t: nat)
    requires Target(e) == Some(t)
    ensures PromiseMoves(s, Next(s, b, e), b, t)
  {
  }

  lemma {:induction false} CloseCounted(s: System, b: Bounds)
    requires Counted(s, b)
    ensures Counted(Next(s, b, Close), b)
  {
    var n := Next(s, b, Close);
    assert Live(n) == Live(s) && InWork(n) == InWork(s) && Overdrawn(n) == Overdrawn(s);
  }

  lemma {:induction false} StagingCounted(s: System, n: System, t: nat)
    requires s.queue.staging == |InWork(s)|
    requires n.queue.staging
          == s.queue.staging + (if InStaging(At(n, t)) then 1 else 0) - (if InStaging(At(s, t)) then 1 else 0)
    requires t in InWork(s) <==> InStaging(At(s, t))
    requires InWork(n) == (if InStaging(At(n, t)) then InWork(s) + {t} else InWork(s) - {t})
    ensures n.queue.staging == |InWork(n)|
  {
  }

  lemma {:induction false} StepCounted(s: System, b: Bounds, e: Event)
    requires Inv(s) && Counted(s, b)
    ensures Counted(Next(s, b, e), b)
  {
    hide Next, Balanced, Owes, InStaging, Live, InWork, Overdrawn, Share, At, PromiseMoves;
    if e.Close? {
      CloseCounted(s, b);
    } else {
      var n, t := Next(s, b, e), Target(e).value;
      assert Balanced(s, t);
      SetsMove(s, b, e, t);
      MemberOfSets(s, t);
      StagingMoves(s, b, e, t);
      StagingCounted(s, n, t);
      BackingMoves(s, b, e, t);
      PromiseCounted(s, n, b, t);
      ReservedMoves(s, b, e, t);
      SharesCounted(s, n, t);
      SlotsCounted(s.queue.reserved, n.queue.reserved, |Live(s)| - |Overdrawn(s)|, Share(At(s, t)), Share(At(n, t)),
          b.slot);
    }
  }

  /** The live attempts less the overdrawn ones move by the share of one attempt. */
  lemma {:induction false} SharesCounted(s: System, n: System, t: nat)
    requires t in Live(s) <==> Owes(At(s, t)) > 0
    requires t in Overdrawn(s) <==> At(s, t).split && Owes(At(s, t)) <= 1
    requires Live(n) == (if Owes(At(n, t)) > 0 then Live(s) + {t} else Live(s) - {t})
    requires Overdrawn(n) == (if At(n, t).split && Owes(At(n, t)) <= 1 then Overdrawn(s) + {t} else Overdrawn(s) - {t})
    ensures |Live(n)| - |Overdrawn(n)| == |Live(s)| - |Overdrawn(s)| + Share(At(n, t)) - Share(At(s, t))
  {
    hide Owes, Live, Overdrawn, At;
    assert |Live(n)| == |Live(s)| + (if Owes(At(n, t)) > 0 then 1 else 0) - (if Owes(At(s, t)) > 0 then 1 else 0);
  }

  lemma {:induction false} SlotsCounted(was: int, now: int, slots: int, share: int, share': int, slot: nat)
    requires was == slots * slot && Moves(was, now, share, share', slot)
    ensures now == (slots + share' - share) * slot
  {
    assert (slots + 1) * slot == slots * slot + slot && (slots - 1) * slot == slots * slot - slot;
  }

  lemma {:induction false} MemberOfSets(s: System, t: nat)
    ensures t in Live(s) <==> Owes(At(s, t)) > 0
    ensures t in InWork(s) <==> InStaging(At(s, t))
    ensures t in Overdrawn(s) <==> At(s, t).split && Owes(At(s, t)) <= 1
  {
  }

  lemma {:induction false} PromiseCounted(s: System, n: System, b: Bounds, t: nat)
    requires s.promised == |s.open| * (b.slot + b.page)
    requires PromiseMoves(s, n, b, t)
    ensures n.promised == |n.open| * (b.slot + b.page)
  {
  }

  // Whole runs

  /** Every reachable state keeps the accounts of every attempt and of the whole queue. */
  lemma {:induction false} Reachable(b: Bounds, es: seq<Event>)
    requires ValidBounds(b)
    ensures Inv(Run(b, es)) && Counted(Run(b, es), b)
  {
    if es == [] {
      assert Live(Start) == {} && InWork(Start) == {} && Overdrawn(Start) == {};
    } else {
      hide Next, Inv, Counted;
      Reachable(b, es[..|es| - 1]);
      StepBalanced(Run(b, es[..|es| - 1]), b, es[|es| - 1]);
      StepCounted(Run(b, es[..|es| - 1]), b, es[|es| - 1]);
    }
  }

  /** The reserved bytes are the slot size times the live slots if and only if no attempt is overdrawn;
      then the live slots are within the limit. An attempt is overdrawn once the executor took its job,
      raised, and the slot came back a first time. */
  lemma {:induction false} SlotsAreConserved(b: Bounds, es: seq<Event>)
    requires ValidBounds(b)
    ensures var s := Run(b, es);
      && s.queue.reserved == (|Live(s)| - |Overdrawn(s)|) * b.slot <= b.limit
      && (s.queue.reserved == |Live(s)| * b.slot <==> Overdrawn(s) == {})
      && (Overdrawn(s) == {} ==> 0 <= |Live(s)| * b.slot <= b.limit)
      && s.queue.staging == |InWork(s)|
  {
    hide Run, Inv, Live, Overdrawn, InWork;
    Reachable(b, es);
    var s := Run(b, es);
    Scaled(|Live(s)|, |Overdrawn(s)|, b.slot);
    assert |Overdrawn(s)| == 0 <==> Overdrawn(s) == {};
  }

  lemma {:induction false} Scaled(live: nat, over: nat, slot: nat)
    requires slot > 0
    ensures (live - over) * slot == live * slot <==> over == 0
    ensures live * slot >= 0
  {
    assert (live - over) * slot == live * slot - over * slot;
    assert over > 0 ==> over * slot > 0;
  }

  /** An attempt that is over gave its slot back exactly once, however it ended, if and only if its
      submission was not split; its RAM promise is back either way. */
  lemma {:induction false} SlotIsReturnedOnce(b: Bounds, es: seq<Event>, t: nat)
    requires ValidBounds(b)
    ensures var s := Run(b, es);
      Over(At(s, t)) && Count(s.granted, t) == 1 ==>
        && t !in s.open
        && (Count(s.released, t) == 1 <==> !At(s, t).split)
        && (At(s, t).split ==> Count(s.released, t) == 2)
    ensures Count(Run(b, es).granted, t) <= 1
    ensures Run(b, es).promised == |Run(b, es).open| * (b.slot + b.page)
  {
    Reachable(b, es);
    assert Balanced(Run(b, es), t);
  }

  /** Once the queue is closed no attempt reserves anything any more. */
  lemma {:induction false} NothingAfterClose(b: Bounds, s: System, e: Event)
    requires s.queue.closed
    ensures Next(s, b, e).queue.closed && Next(s, b, e).queue.reserved <= s.queue.reserved
    ensures Next(s, b, e).granted == s.granted
  {
  }

  // A run that overdraws

  /** With a thread at work, the executor takes the second job and raises because it cannot start
      another thread; the thread finishes that job before the caller's cleanup gets to the stage. */
  function Overdrawing(): seq<Event> {
    [Ask(0), MakeStage(0), Submit(0, Takes(true)), Publish(0, false), PublisherRemoves(0, false), PublisherRetires(0),
     PublisherReleases(0)]
    + [Ask(1), MakeStage(1), Submit(1, TakesThenRaises), Publish(1, false), PublisherRemoves(1, false),
       PublisherRetires(1), PublisherReleases(1)]
    + [CallerRemoves(1, false), CallerRetires(1), CallerLeaves(1), CallerReleases(1)]
  }

  function Play(s: System, b: Bounds, es: seq<Event>): System
    decreases |es|
  {
    if es == [] then s else Play(Next(s, b, es[0]), b, es[1..])
  }

  lemma {:induction false} PlayIsRun(b: Bounds, es: seq<Event>, rest: seq<Event>)
    ensures Play(Run(b, es), b, rest) == Run(b, es + rest)
    decreases |rest|
  {
    hide Next;
    if rest == [] {
      assert es + rest == es;
    } else {
      RunStep(b, es, rest[0]);
      PlayIsRun(b, es + [rest[0]], rest[1..]);
      assert es + [rest[0]] + rest[1..] == es + rest;
    }
  }

  lemma {:induction false} RunStep(b: Bounds, es: seq<Event>, e: Event)
    ensures Run(b, es + [e]) == Next(Run(b, es), b, e)
  {
    assert (es + [e])[..|es|] == es;
  }

  lemma {:induction false} PlayOne(s: System, b: Bounds, e: Event, rest: seq<Event>)
    ensures Play(s, b, [e] + rest) == Play(Next(s, b, e), b, rest)
  {
    hide Next;
    assert ([e] + rest)[1..] == rest;
  }

  function Left(q: int, a: map<nat, Attempt>, given: map<nat, nat>, back: map<nat, nat>, threads: nat): System {
    System(Queue(q, 0, false, false), a, {}, 0, given, back, threads)
  }

  const Done := Attempt(HandedOver, Finished, false, Gone)

  const Twice := Attempt(Raised, Finished, true, Gone)

  lemma {:induction false} FirstJob(b: Bounds, rest: seq<Event>)
    requires ValidBounds(b)
    ensures Play(Start, b, [Ask(0), MakeStage(0), Submit(0, Takes(true)), Publish(0, false), PublisherRemoves(0, false),
                            PublisherRetires(0), PublisherReleases(0)] + rest)
         == Play(Left(0, map[0 := Done], map[0 := 1], map[0 := 1], 1), b, rest)
  {
    var s1 := Next(Start, b, Ask(0));
    var s2 := Next(s1, b, MakeStage(0));
    assert s2 == System(Queue(b.slot, 1, false, false), map[0 :=
        Attempt(Staging, NoJob, false, Present)], {}, 0, map[0 := 1], map[], 0);
    var s3 := Next(s2, b, Submit(0, Takes(true)));
    assert s3 == System(Queue(b.slot, 0, false, false), map[0 :=
        Attempt(HandedOver, Queued, false, Present)], {}, 0, map[0 := 1], map[], 1);
    assert Running(s3) == {};
    var s4 := Next(s3, b, Publish(0, false));
    var s5 := Next(s4, b, PublisherRemoves(0, false));
    var s6 := Next(s5, b, PublisherRetires(0));
    var s7 := Next(s6, b, PublisherReleases(0));
    assert s7 == Left(0, map[0 := Done], map[0 := 1], map[0 := 1], 1);
    hide Next, Play;
    SevenSteps(Start, s1, s2, s3, s4, s5, s6, s7, b, Ask(0), MakeStage(0), Submit(0, Takes(true)), Publish(0, false),
               PublisherRemoves(0, false), PublisherRetires(0), PublisherReleases(0), rest);
  }

  lemma {:induction false} SevenSteps(s0: System, s1: System, s2: System, s3: System, s4: System, s5: System,
        s6: System, s7: System, b: Bounds, e1: Event, e2: Event, e3: Event, e4: Event, e5: Event,
                                      e6: Event, e7: Event, rest: seq<Event>)
    requires s1 == Next(s0, b, e1) && s2 == Next(s1, b, e2) && s3 == Next(s2, b, e3) && s4 == Next(s3, b, e4)
    requires s5 == Next(s4, b, e5) && s6 == Next(s5, b, e6) && s7 == Next(s6, b, e7)
    ensures Play(s0, b, [e1, e2, e3, e4, e5, e6, e7] + rest) == Play(s7, b, rest)
  {
    hide *;
    var r6 := [e7] + rest;
    var r5 := [e6] + r6;
    var r4 := [e5] + r5;
    var r3 := [e4] + r4;
    var r2 := [e3] + r3;
    var r1 := [e2] + r2;
    assert [e1, e2, e3, e4, e5, e6, e7] + rest == [e1] + r1;
    PlayOne(s0, b, e1, r1);
    PlayOne(s1, b, e2, r2);
    PlayOne(s2, b, e3, r3);
    PlayOne(s3, b, e4, r4);
    PlayOne(s4, b, e5, r5);
    PlayOne(s5, b, e6, r6);
    PlayOne(s6, b, e7, rest);
  }

  lemma {:induction false} SecondJob(b: Bounds, rest: seq<Event>)
    requires ValidBounds(b)
    ensures Play(Left(0, map[0 := Done], map[0 := 1], map[0 := 1], 1), b,
                 [Ask(1), MakeStage(1), Submit(1, TakesThenRaises), Publish(1, false), PublisherRemoves(1, false),
                  PublisherRetires(1), PublisherReleases(1)] + rest)
         == Play(Cleaning(), b, rest)
  {
    var given := map[0 := 1, 1 := 1];
    var s0 := Left(0, map[0 := Done], map[0 := 1], map[0 := 1], 1);
    var s1 := Next(s0, b, Ask(1));
    var s2 := Next(s1, b, MakeStage(1));
    var s3 := Next(s2, b, Submit(1, TakesThenRaises));
    var s4 := Next(s3, b, Publish(1, false));
    var s5 := Next(s4, b, PublisherRemoves(1, false));
    var s6 := Next(s5, b, PublisherRetires(1));
    var s7 := Next(s6, b, PublisherReleases(1));
    hide Next, Play;
    SecondSubmits(b);
    SecondPublishes(b);
    SevenSteps(s0, s1, s2, s3, s4, s5, s6, s7, b, Ask(1), MakeStage(1), Submit(1, TakesThenRaises), Publish(1, false),
               PublisherRemoves(1, false), PublisherRetires(1), PublisherReleases(1), rest);
  }

  function Raising(slot: nat): System {
    System(Queue(slot, 1, false, false), map[0 := Done, 1 := Attempt(Removing(false), Queued, true, Present)], {}, 0,
           map[0 := 1, 1 := 1], map[0 := 1], 1)
  }

  lemma {:induction false} SecondSubmits(b: Bounds)
    requires ValidBounds(b)
    ensures var s0 := Left(0, map[0 := Done], map[0 := 1], map[0 := 1], 1);
            Next(Next(Next(s0, b, Ask(1)), b, MakeStage(1)), b, Submit(1, TakesThenRaises)) == Raising(b.slot)
  {
    var s1 := Next(Left(0, map[0 := Done], map[0 := 1], map[0 := 1], 1), b, Ask(1));
    var s2 := Next(s1, b, MakeStage(1));
    assert s2 == System(Queue(b.slot, 1, false, false), map[0 := Done, 1 :=
        Attempt(Staging, NoJob, false, Present)], {}, 0,
                        map[0 := 1, 1 := 1], map[0 := 1], 1);
  }

  lemma {:induction false} SecondPublishes(b: Bounds)
    ensures Next(Next(Next(Next(Raising(b.slot), b, Publish(1, false)), b, PublisherRemoves(1, false)), b,
                      PublisherRetires(1)), b, PublisherReleases(1))
         == Cleaning()
  {
    assert Running(Raising(b.slot)) == {};
    var s5 := Next(Next(Raising(b.slot), b, Publish(1, false)), b, PublisherRemoves(1, false));
    assert s5 == System(Queue(b.slot, 1, false, false),
                        map[0 := Done, 1 := Attempt(Removing(false), PublisherRetiring(false), true, Gone)], {}, 0,
                        map[0 := 1, 1 := 1], map[0 := 1], 1);
  }

  function Cleaning(): System {
    System(Queue(0, 1, false, false), map[0 := Done, 1 := Attempt(Removing(false), Finished, true, Gone)], {}, 0,
           map[0 := 1, 1 := 1], map[0 := 1, 1 := 1], 1)
  }

  lemma {:induction false} CallerCleans(b: Bounds)
    ensures Next(Next(Next(Next(Cleaning(), b, CallerRemoves(1, false)), b, CallerRetires(1)), b, CallerLeaves(1)), b,
                 CallerReleases(1))
         == Left(0 - b.slot, map[0 := Done, 1 := Twice], map[0 := 1, 1 := 1], map[0 := 1, 1 := 2], 1)
  {
    var s2 := Next(Next(Cleaning(), b, CallerRemoves(1, false)), b, CallerRetires(1));
    assert s2 == System(Queue(0, 1, false, false), map[0 := Done, 1 :=
        Attempt(Leaving(false), Finished, true, Gone)], {}, 0,
                        map[0 := 1, 1 := 1], map[0 := 1, 1 := 1], 1);
  }

  lemma {:induction false} SecondCaller(b: Bounds)
    ensures Play(Cleaning(), b, [CallerRemoves(1, false), CallerRetires(1), CallerLeaves(1), CallerReleases(1)])
         == Left(0 - b.slot, map[0 := Done, 1 := Twice], map[0 := 1, 1 := 1], map[0 := 1, 1 := 2], 1)
  {
    hide *;
    CallerCleans(b);
    var s1 := Next(Cleaning(), b, CallerRemoves(1, false));
    var s2 := Next(s1, b, CallerRetires(1));
    var s3 := Next(s2, b, CallerLeaves(1));
    var r3 := [CallerReleases(1)];
    var r2 := [CallerLeaves(1)] + r3;
    var r1 := [CallerRetires(1)] + r2;
    assert [CallerRemoves(1, false), CallerRetires(1), CallerLeaves(1), CallerReleases(1)]
        == [CallerRemoves(1, false)] + r1;
    PlayOne(Cleaning(), b, CallerRemoves(1, false), r1);
    PlayOne(s1, b, CallerRetires(1), r2);
    PlayOne(s2, b, CallerLeaves(1), r3);
    PlayOne(s3, b, CallerReleases(1), []);
    assert r3 + [] == r3;
    PlayNothing(Next(s3, b, CallerReleases(1)), b);
  }

  lemma {:induction false} PlayNothing(s: System, b: Bounds)
    ensures Play(s, b, []) == s
  {
  }

  lemma {:induction false} OverdrawingEnds(b: Bounds)
    requires ValidBounds(b)
    ensures Run(b, Overdrawing()) == Left(0 - b.slot, map[0 := Done, 1 := Twice], map[0 := 1, 1 := 1],
                                         map[0 := 1, 1 := 2], 1)
  {
    hide Next, Play;
    var c := [CallerRemoves(1, false), CallerRetires(1), CallerLeaves(1), CallerReleases(1)];
    var second := [Ask(1), MakeStage(1), Submit(1, TakesThenRaises), Publish(1, false), PublisherRemoves(1, false),
                   PublisherRetires(1), PublisherReleases(1)];
    FirstJob(b, second + c);
    SecondJob(b, c);
    SecondCaller(b);
    assert Run(b, []) == Start;
    PlayIsRun(b, [], Overdrawing());
    assert [] + Overdrawing() == Overdrawing();
    assert Overdrawing() == [Ask(0), MakeStage(0), Submit(0, Takes(true)), Publish(0, false),
        PublisherRemoves(0, false),
                             PublisherRetires(0), PublisherReleases(0)] + (second + c);
  }

  /** Attempts 2, 3, ... ask for a slot, `n` of them. */
  function Asks(n: nat): seq<Event> {
    if n == 0 then [] else Asks(n - 1) + [Ask(n + 1)]
  }

  /** With a slot's room left, one more attempt is granted. */
  lemma {:induction false} AskIsGranted(s: System, b: Bounds, r: int, n: nat)
    requires ValidBounds(b) && n > 0 && s.queue == Queue(r, n - 1, false, false) && r + b.slot <= b.limit
    requires At(s, 1) == Twice
    requires forall t | t in s.attempts :: t < n + 1 && (s.attempts[t].split <==> t == 1)
    ensures var s' := Next(s, b, Ask(n + 1));
      && s'.queue == Queue(r + b.slot, n, false, false) && At(s', 1) == Twice
      && (forall t | t in s'.attempts :: t < n + 2 && (s'.attempts[t].split <==> t == 1))
  {
  }

  lemma {:induction false} NothingAsked(b: Bounds)
    requires ValidBounds(b)
    ensures var s := Run(b, Overdrawing() + Asks(0));
      && s.queue == Queue(0 - b.slot, 0, false, false) && At(s, 1) == Twice
      && (forall t | t in s.attempts :: t < 2 && (s.attempts[t].split <==> t == 1))
  {
    hide Run, Overdrawing;
    OverdrawingEnds(b);
    assert Overdrawing() + Asks(0) == Overdrawing();
  }

  lemma {:induction false} AsksAreGranted(b: Bounds, n: nat)
    requires ValidBounds(b) && (n - 1) * b.slot <= b.limit
    ensures var s := Run(b, Overdrawing() + Asks(n));
      && s.queue == Queue((n - 1) * b.slot, n, false, false)
      && At(s, 1) == Twice
      && (forall t | t in s.attempts :: t < n + 2 && (s.attempts[t].split <==> t == 1))
  {
    hide Run, Overdrawing, Next, At, ValidBounds;
    OneSlotMore(b, n);
    if n == 0 {
      NothingAsked(b);
    } else {
      AsksAreGranted(b, n - 1);
      RunStep(b, Overdrawing() + Asks(n - 1), Ask(n + 1));
      assert Overdrawing() + Asks(n - 1) + [Ask(n + 1)] == Overdrawing() + Asks(n);
      AskIsGranted(Run(b, Overdrawing() + Asks(n - 1)), b, (n - 2) * b.slot, n);
    }
  }

  lemma {:induction false} OneSlotMore(b: Bounds, n: nat)
    ensures (n - 2) * b.slot + b.slot == (n - 1) * b.slot && -1 * b.slot == 0 - b.slot
  {
  }

  /** An executor that takes a job and then raises makes the queue admit more live slots than its limit
      allows, without an error, whatever the bounds. */
  lemma {:induction false} SplitSubmissionOveradmits(b: Bounds)
    requires ValidBounds(b)
    ensures var s := Run(b, Overdrawing() + Asks(b.limit / b.slot + 1));
      !s.queue.error && !s.queue.closed && |Live(s)| * b.slot > b.limit
  {
    hide Overdrawing, Asks, Run;
    var k := b.limit / b.slot;
    Slots(b.limit, b.slot);
    var es := Overdrawing() + Asks(k + 1);
    AsksAreGranted(b, k + 1);
    Reachable(b, es);
    var s := Run(b, es);
    assert 1 in s.attempts;
    assert Overdrawn(s) == {1};
    SameFactor(k, |Live(s)| - 1, b.slot);
  }

  lemma {:induction false} Slots(limit: nat, slot: nat)
    requires slot > 0
    ensures limit / slot * slot <= limit < (limit / slot + 1) * slot
  {
    assert limit == limit / slot * slot + limit % slot;
  }

  lemma {:induction false} SameFactor(a: int, b: int, c: nat)
    requires c > 0 && a * c == b * c
    ensures a == b
  {
    More(a, b, c);
    More(b, a, c);
  }

  lemma {:induction false} More(a: int, b: int, c: nat)
    requires c > 0
    ensures a < b ==> a * c < b * c
  {
    if a < b {
      assert b * c == a * c + (b - a) * c && (b - a) * c > 0;
    }
  }
}
