/** The coordinator's decisions told on devices, flags, demands and times, without its own functions. */
module GpuRules {
  import opened Options
  import opened GpuStages

  // Demands

  /** The demand is alive, may use the device, and has a reason: pressure, or half a minute of waiting. */
  predicate Ready(c: Coordinator, flags: Flags, r: Request, d: int, now: int) {
    now < r.expiry && d in r.devices && (c.pressure || (flags.ageRetirement && r.first + 30000 <= now))
  }

  predicate SomeReady(c: Coordinator, flags: Flags, requests: seq<Request>, d: int, now: int) {
    exists r <- requests :: Ready(c, flags, r, d, now)
  }

  predicate IsOldest(c: Coordinator, flags: Flags, requests: seq<Request>, i: nat, d: int, now: int)
    requires i < |requests|
  {
    Ready(c, flags, requests[i], d, now) && forall j | 0 <= j < i :: !Ready(c, flags, requests[j], d, now)
  }

  /** Of the ready demands for the device, the oldest is for this purpose. */
  predicate Leads(c: Coordinator, flags: Flags, requests: seq<Request>, d: int, purpose: Purpose, now: int) {
    exists i | 0 <= i < |requests| :: requests[i].purpose == purpose && IsOldest(c, flags, requests, i, d, now)
  }

  /** The device's reserved turn is still good: the queue is at work, somebody is ready for it, and a handoff
      has not run out. */
  predicate TurnStands(c: Coordinator, flags: Flags, d: int, now: int) {
    && c.queue.reserved == Some(d) && flags.pressureRetirement && !c.retiring && c.backlog
    && SomeReady(c, flags, c.queue.requests, d, now) && (c.queue.handoff.Some? ==> now < c.queue.deadline)
  }

  function Alive(c: Coordinator, now: int): Coordinator {
    c.(queue := c.queue.(requests := LiveRequests(c.queue.requests, now)))
  }

  lemma {:induction false} LiveAgain(requests: seq<Request>, now: int)
    ensures LiveRequests(LiveRequests(requests, now), now) == LiveRequests(requests, now)
  {
    if requests != [] {
      LiveAgain(requests[1..], now);
      var rest := LiveRequests(requests[1..], now);
      assert ([requests[0]] + rest)[1..] == rest && [] + rest == rest;
    }
  }

  lemma {:induction false} HeadOrRest(c: Coordinator, flags: Flags, head: Request, rest: seq<Request>, d: int,
        purpose: Purpose, now: int)
    ensures SomeReady(c, flags, [head] + rest, d, now)
        <==> Ready(c, flags, head, d, now) || SomeReady(c, flags, rest, d, now)
    ensures Leads(c, flags, [head] + rest, d, purpose, now)
        <==> if Ready(c, flags, head, d, now) then head.purpose == purpose else Leads(c, flags, rest, d, purpose, now)
  {
    hide Ready;
    var all := [head] + rest;
    assert all[0] == head;
    forall i: nat | i < |rest|
      ensures all[i + 1] == rest[i]
      ensures !Ready(c, flags, head, d, now) ==>
                (IsOldest(c, flags, all, i + 1, d, now) <==> IsOldest(c, flags, rest, i, d, now))
    {
      if !Ready(c, flags, head, d, now) {
        OldestBehind(c, flags, head, rest, i, d, now);
      }
    }
    if Leads(c, flags, all, d, purpose, now) {
      var i: nat :| i < |all| && all[i].purpose == purpose && IsOldest(c, flags, all, i, d, now);
      if i > 0 && !Ready(c, flags, head, d, now) {
        assert IsOldest(c, flags, all, (i - 1) + 1, d, now);
      }
    }
    if Leads(c, flags, rest, d, purpose, now) {
      var i: nat :| i < |rest| && rest[i].purpose == purpose && IsOldest(c, flags, rest, i, d, now);
      assert all[i + 1] == rest[i];
    }
    if Ready(c, flags, head, d, now) {
      assert IsOldest(c, flags, all, 0, d, now);
    }
  }

  lemma {:induction false} OldestBehind(c: Coordinator, flags: Flags, head: Request, rest: seq<Request>, i: nat,
        d: int, now: int)
    requires i < |rest| && !Ready(c, flags, head, d, now)
    ensures IsOldest(c, flags, [head] + rest, i + 1, d, now) <==> IsOldest(c, flags, rest, i, d, now)
  {
    hide Ready;
    var all := [head] + rest;
    if IsOldest(c, flags, all, i + 1, d, now) {
      forall j | 0 <= j < i
        ensures !Ready(c, flags, rest[j], d, now)
      {
        assert all[j + 1] == rest[j];
      }
    }
  }

  /** The scan over the demands finds the oldest ready one. */
  lemma {:induction false} ScanFindsOldest(c: Coordinator, flags: Flags, requests: seq<Request>, d: int,
        purpose: Purpose, now: int)
    ensures var found := NextRequest(c, flags, LiveRequests(requests, now), d, now);
      && (found.Some? <==> SomeReady(c, flags, requests, d, now))
      && (found == Some(purpose) <==> Leads(c, flags, requests, d, purpose, now))
  {
    hide IsOldest, Leads, SomeReady;
    if requests == [] {
      NoDemands(c, flags, d, purpose, now);
    } else {
      var head, rest := requests[0], requests[1..];
      ScanFindsOldest(c, flags, rest, d, purpose, now);
      var live := LiveRequests(rest, now);
      assert ([head] + live)[1..] == live && [] + live == live;
      assert requests == [head] + rest;
      HeadOrRest(c, flags, head, rest, d, purpose, now);
    }
  }

  lemma {:induction false} NoDemands(c: Coordinator, flags: Flags, d: int, purpose: Purpose, now: int)
    ensures !SomeReady(c, flags, [], d, now) && !Leads(c, flags, [], d, purpose, now)
  {
  }

  /** The turn that is found reserved on the device is one that stands, and it is left alone. */
  lemma {:induction false} StandingTurn(c: Coordinator, flags: Flags, d: int, now: int)
    ensures var after := Refresh(c, flags, now);
      && (after.queue.reserved == Some(d) <==> TurnStands(c, flags, d, now))
      && (TurnStands(c, flags, d, now) ==> after == Alive(c, now))
      && after.queue.requests == LiveRequests(c.queue.requests, now)
  {
    var live := Alive(c, now);
    var w := if c.queue.reserved.Some? then c.queue.reserved.value else d;
    ScanFindsOldest(live, flags, c.queue.requests, w, Purpose(Other, 0), now);
    SameReady(live, c, flags, c.queue.requests, w, now);
    if LiveRequests(c.queue.requests, now) == [] {
      NoneLive(c, flags, c.queue.requests, w, now);
    }
    hide SomeReady, LiveRequests, NextRequest;
  }

  lemma {:induction false} SameReady(c: Coordinator, b: Coordinator, flags: Flags, requests: seq<Request>, d: int,
        now: int)
    requires c.pressure == b.pressure
    ensures SomeReady(c, flags, requests, d, now) <==> SomeReady(b, flags, requests, d, now)
  {
  }

  lemma {:induction false} NoneLive(c: Coordinator, flags: Flags, requests: seq<Request>, d: int, now: int)
    requires LiveRequests(requests, now) == []
    ensures !SomeReady(c, flags, requests, d, now)
  {
    ScanFindsOldest(c, flags, requests, d, Purpose(Other, 0), now);
    hide SomeReady;
  }

  // Admission

  /** Whether inference, retirement and the turn queue let a stage without a residency onto the device. A device
      that is no worker is nobody's priority; one that is being retired takes only a segmentation stage, once
      its inference assets are gone. */
  predicate MayEnter(c: Coordinator, flags: Flags, d: int, purpose: Purpose, now: int) {
    if d !in c.workers then true
    else if c.retiring then purpose.kind == Sam && d in c.retired
    else match purpose.kind
      case SourceProjection =>
        c.backlog ==>
          && TurnStands(c, flags, d, now) && Leads(c, flags, c.queue.requests, d, purpose, now)
          && forall w <- c.own.leases :: c.own.leases[w].kind != SourceProjection
      case Backprojection => !c.priority || (flags.overlap && !c.backlog)
      case _ => !c.priority
  }

  lemma {:induction false} BlocksUnless(c: Coordinator, flags: Flags, d: int, purpose: Purpose, now: int)
    ensures var (blocked, after) := PriorityBlocks(c, flags, d, purpose, now);
      && (blocked <==> !MayEnter(c, flags, d, purpose, now))
      && (!blocked ==> after == c || after == Alive(c, now))
  {
    StandingTurn(c, flags, d, now);
    ScanFindsOldest(Refresh(c, flags, now), flags, c.queue.requests, d, purpose, now);
    SameLeads(Refresh(c, flags, now), c, flags, c.queue.requests, d, purpose, now);
    RefreshQueueOnly(c, flags, now);
    hide Refresh, TurnStands, Leads, NextRequest, LiveRequests, SomeReady;
  }

  lemma {:induction false} SameLeads(c: Coordinator, b: Coordinator, flags: Flags, requests: seq<Request>, d: int,
        purpose: Purpose, now: int)
    requires c.pressure == b.pressure
    ensures Leads(c, flags, requests, d, purpose, now) <==> Leads(b, flags, requests, d, purpose, now)
  {
    forall i: nat | i < |requests|
      ensures IsOldest(c, flags, requests, i, d, now) <==> IsOldest(b, flags, requests, i, d, now)
    {
    }
  }

  lemma {:induction false} RefreshQueueOnly(c: Coordinator, flags: Flags, now: int)
    ensures Refresh(c, flags, now) == c.(queue := Refresh(c, flags, now).queue)
  {
    hide LiveRequests, NextRequest;
  }

  /** A resident owner comes back by its token; others only share a residency that is lent, and only to project. */
  predicate Welcome(c: Coordinator, d: int, purpose: Purpose, residentToken: Option<nat>) {
    match residentToken
    case Some(token) => d in c.own.residents && c.own.residents[d].token == token
    case None => d in c.own.residents ==> c.own.residents[d].lendable && purpose.kind == SourceProjection
  }

  predicate AtRest(c: Coordinator, d: int) {
    d !in c.own.leases && (d in c.inflight ==> c.inflight[d] == 0)
  }

  predicate Admitted(c: Coordinator, flags: Flags, d: int, purpose: Purpose, residentToken: Option<nat>, now: int) {
    AtRest(c, d) && Welcome(c, d, purpose, residentToken)
        && (residentToken.None? ==> MayEnter(c, flags, d, purpose, now))
  }

  /** A device is reserved exactly for an admitted stage of the current run, when nobody else has reserved it. */
  lemma {:induction false} ReservedWhenAdmitted(c: Coordinator, flags: Flags, d: int, purpose: Purpose, epoch: nat,
        residentToken: Option<nat>, reservation: nat, now: int)
    ensures Reserve(c, flags, d, purpose, epoch, residentToken, reservation, now).0
        <==> epoch == c.epoch && d !in c.own.provisional && Admitted(c, flags, d, purpose, residentToken, now)
  {
    BlocksUnless(c, flags, d, purpose, now);
    hide PriorityBlocks, MayEnter;
  }

  /** And committed exactly when it is still admitted and the reservation is its own. */
  lemma {:induction false} CommittedWhenAdmitted(c: Coordinator, flags: Flags, d: int, purpose: Purpose, epoch: nat,
        residentToken: Option<nat>, reservation: nat, claim: Option<nat>, token: nat, now: int)
    ensures CommitStage(c, flags, d, purpose, epoch, residentToken, reservation, claim, token, now).0
        <==> && epoch == c.epoch && d in c.own.provisional && c.own.provisional[d] == reservation
             && Admitted(c, flags, d, purpose, residentToken, now)
  {
    BlocksUnless(c, flags, d, purpose, now);
    hide PriorityBlocks, MayEnter, RecordProjection, Leased;
  }

  /** An admitted reservation that is committed at once is still admitted. */
  lemma {:induction false} StaysAdmitted(c: Coordinator, flags: Flags, d: int, purpose: Purpose,
        residentToken: Option<nat>, reservation: nat, now: int)
    requires d !in c.own.provisional && Admitted(c, flags, d, purpose, residentToken, now)
    ensures Admitted(Reserve(c, flags, d, purpose, c.epoch, residentToken, reservation, now).1, flags, d, purpose,
                     residentToken, now)
    ensures var after := Reserve(c, flags, d, purpose, c.epoch, residentToken, reservation, now).1;
      && after.own == c.own.(provisional := c.own.provisional[d := reservation]) && after.epoch == c.epoch
  {
    BlocksUnless(c, flags, d, purpose, now);
    ReservedWhenAdmitted(c, flags, d, purpose, c.epoch, residentToken, reservation, now);
    AliveEnters(c, flags, d, purpose, now);
    ReservedEnters(c, flags, d, purpose, reservation, now);
    ReservedEnters(Alive(c, now), flags, d, purpose, reservation, now);
    hide PriorityBlocks, MayEnter;
  }

  lemma {:induction false} ReservedEnters(c: Coordinator, flags: Flags, d: int, purpose: Purpose, reservation: nat,
        now: int)
    ensures MayEnter(Reserved(c, d, reservation), flags, d, purpose, now) <==> MayEnter(c, flags, d, purpose, now)
  {
    SameLeads(Reserved(c, d, reservation), c, flags, c.queue.requests, d, purpose, now);
    SameReady(Reserved(c, d, reservation), c, flags, c.queue.requests, d, now);
    hide Leads, SomeReady;
  }

  lemma {:induction false} AliveEnters(c: Coordinator, flags: Flags, d: int, purpose: Purpose, now: int)
    ensures MayEnter(Alive(c, now), flags, d, purpose, now) <==> MayEnter(c, flags, d, purpose, now)
  {
    var a := Alive(c, now);
    LiveAgain(c.queue.requests, now);
    ScanFindsOldest(c, flags, c.queue.requests, d, purpose, now);
    ScanFindsOldest(c, flags, a.queue.requests, d, purpose, now);
    SameLeads(a, c, flags, a.queue.requests, d, purpose, now);
    SameReady(a, c, flags, a.queue.requests, d, now);
    hide Leads, SomeReady, LiveRequests, NextRequest;
  }

  /** A dispatch is accepted exactly on a device that is not retired, resident, reserved or leased, and whose
      turn nobody holds. */
  lemma {:induction false} DispatchedWhenFree(c: Coordinator, flags: Flags, d: int, now: int)
    ensures BeginInference(c, flags, d, now).0
        <==> && d !in c.retired && d !in c.own.residents && d !in c.own.provisional && d !in c.own.leases
             && !TurnStands(c, flags, d, now)
    ensures BeginInference(c, flags, d, now).0 ==>
      var after := BeginInference(c, flags, d, now).1;
      && Count(after.inflight, d) == Count(c.inflight, d) + 1 && d !in after.queue.burst
      && forall w: int | w != d ::
           && Count(after.inflight, w) == Count(c.inflight, w)
           && Count(after.queue.burst, w) == Count(Refresh(c, flags, now).queue.burst, w)
  {
    StandingTurn(c, flags, d, now);
    RefreshQueueOnly(c, flags, now);
    hide Refresh, TurnStands;
  }
}
