/** Who gets a retirement turn, and when, told on devices, demands and times. */
module GpuTurns {
  import opened Options
  import opened GpuStages
  import opened GpuRules

  // Asking

  lemma {:induction false} LiveOnes(requests: seq<Request>, now: int, r: Request)
    ensures r in LiveRequests(requests, now) <==> r in requests && now < r.expiry
  {
    if requests != [] {
      LiveOnes(requests[1..], now, r);
    }
  }

  /** A demand is renewed where it stands or put behind all others: it names the devices asked for, lives for
      half a minute from now, and keeps the time at which it was first made. */
  lemma {:induction false} DemandIsPut(requests: seq<Request>, purpose: Purpose, devices: seq<int>, now: int)
        returns (k: nat)
    ensures k <= |requests| && (forall j | 0 <= j < k :: requests[j].purpose != purpose)
    ensures k < |requests| ==> requests[k].purpose == purpose
    ensures var after := PutRequest(requests, purpose, devices, now);
      && |after| == (if k < |requests| then |requests| else |requests| + 1)
      && after[k] == Request(purpose, now + 30000, devices, if k < |requests| then requests[k].first else now)
      && forall j | 0 <= j < |after| && j != k :: after[j] == requests[j]
  {
    if requests == [] || requests[0].purpose == purpose {
      k := 0;
    } else {
      var n := DemandIsPut(requests[1..], purpose, devices, now);
      k := n + 1;
    }
  }

  /** The queue listens to a projection while inference waits, no asset is being retired, and the time after the
      last failure is over. */
  predicate Heard(c: Coordinator, flags: Flags, purpose: Purpose, now: int) {
    && purpose.kind == SourceProjection && c.backlog && !c.retiring && flags.pressureRetirement
    && c.queue.retryAfter <= now
  }

  /** A worker that can be drained: no stage on it, and fewer than two projections since its last dispatch. */
  predicate Drains(c: Coordinator, d: int) {
    d in c.workers && d !in c.own.leases && (d in c.queue.burst ==> c.queue.burst[d] < 2)
  }

  predicate Wanted(c: Coordinator, flags: Flags, r: Request, d: int, now: int) {
    d in r.devices && Drains(c, d) && (c.pressure || (flags.ageRetirement && r.first + 30000 <= now))
  }

  predicate Unmet(c: Coordinator, flags: Flags, r: Request, now: int) {
    forall d <- r.devices :: !Wanted(c, flags, r, d, now)
  }

  lemma {:induction false} AvailableDrain(c: Coordinator, d: int)
    ensures d in Available(c) <==> Drains(c, d)
  {
  }

  /** The drain goes to the oldest due demand that has a device to drain, on any such device of its own. */
  lemma {:induction false} DrainsOldest(c: Coordinator, flags: Flags, requests: seq<Request>, now: int)
    ensures var choice := DrainCandidates(c, flags, requests, Available(c), now);
      if choice == [] then forall r <- requests :: Unmet(c, flags, r, now)
      else exists i: nat | i < |requests| ::
             && (forall j | 0 <= j < i :: Unmet(c, flags, requests[j], now))
             && forall d :: d in choice <==> Wanted(c, flags, requests[i], d, now)
  {
    hide Available, Wanted, Unmet, Due, Select;
    if requests != [] {
      var head, rest := requests[0], requests[1..];
      DrainsOldest(c, flags, rest, now);
      var mine := Select(head.devices, Available(c));
      if mine != [] && Due(c, flags, head, now) {
        HeadWanted(c, flags, head, now);
        assert requests[0] == head;
      } else {
        HeadUnmet(c, flags, head, now);
        var choice := DrainCandidates(c, flags, rest, Available(c), now);
        if choice != [] {
          var i: nat :| i < |rest| && (forall j | 0 <= j < i :: Unmet(c, flags, rest[j], now))
                        && forall d :: d in choice <==> Wanted(c, flags, rest[i], d, now);
          Behind(c, flags, head, rest, i, now);
        }
      }
    }
  }

  lemma {:induction false} HeadWanted(c: Coordinator, flags: Flags, head: Request, now: int)
    requires Due(c, flags, head, now)
    ensures forall d :: d in Select(head.devices, Available(c)) <==> Wanted(c, flags, head, d, now)
  {
    hide Available, Drains, Select;
    forall d
      ensures d in Available(c) <==> Drains(c, d)
    {
      AvailableDrain(c, d);
    }
  }

  lemma {:induction false} HeadUnmet(c: Coordinator, flags: Flags, head: Request, now: int)
    requires Select(head.devices, Available(c)) == [] || !Due(c, flags, head, now)
    ensures Unmet(c, flags, head, now)
  {
    hide Available, Drains;
    forall d | d in head.devices
      ensures !Wanted(c, flags, head, d, now)
    {
      AvailableDrain(c, d);
      assert d in Available(c) ==> d in Select(head.devices, Available(c));
    }
  }

  lemma {:induction false} Behind(c: Coordinator, flags: Flags, head: Request, rest: seq<Request>, i: nat, now: int)
    requires i < |rest| && Unmet(c, flags, head, now) && forall j | 0 <= j < i :: Unmet(c, flags, rest[j], now)
    ensures var all := [head] + rest; all[i + 1] == rest[i] && forall j | 0 <= j < i + 1 :: Unmet(c, flags, all[j], now)
  {
    hide Unmet;
    var all := [head] + rest;
    forall j | 0 <= j < i + 1
      ensures Unmet(c, flags, all[j], now)
    {
      assert j > 0 ==> all[j] == rest[j - 1];
    }
  }

  /** The `i`-th demand is served by draining `w`: older ones cannot be, and no device of its own that could be
      drained has fewer dispatches in flight. */
  predicate Serves(c: Coordinator, flags: Flags, i: nat, w: int, now: int)
    requires i < |c.queue.requests|
  {
    && (forall j | 0 <= j < i :: Unmet(c, flags, c.queue.requests[j], now))
    && Wanted(c, flags, c.queue.requests[i], w, now)
    && forall d <- c.queue.requests[i].devices :: Wanted(c, flags, c.queue.requests[i], d, now) ==>
         Count(c.inflight, w) <= Count(c.inflight, d)
  }

  lemma {:induction false} ChoiceServes(c: Coordinator, flags: Flags, now: int)
    requires DrainCandidates(c, flags, c.queue.requests, Available(c), now) != [] && c.workers != {}
    ensures var w := LeastLoaded(c, DrainCandidates(c, flags, c.queue.requests, Available(c), now));
            exists i: nat :: i < |c.queue.requests| && Serves(c, flags, i, w, now)
  {
    hide DrainCandidates, Available, Wanted, Unmet, Rank, LeastLoaded;
    DrainsOldest(c, flags, c.queue.requests, now);
    var rs, choice := c.queue.requests, DrainCandidates(c, flags, c.queue.requests, Available(c), now);
    var w := LeastLoaded(c, choice);
    var i: nat :| i < |rs| && (forall j | 0 <= j < i :: Unmet(c, flags, rs[j], now))
                  && forall d :: d in choice <==> Wanted(c, flags, rs[i], d, now);
    forall d | Wanted(c, flags, rs[i], d, now)
      ensures Count(c.inflight, w) <= Count(c.inflight, d)
    {
      assert d in choice && Before(c, w, d);
    }
    assert i < |c.queue.requests| && Serves(c, flags, i, w, now);
    assert exists k: nat :: k < |c.queue.requests| && Serves(c, flags, k, LeastLoaded(c, choice), now);
  }

  /** Nothing that the choice of a device looks at differs. */
  predicate SameChoice(c: Coordinator, b: Coordinator) {
    && c.workers == b.workers && c.own.leases == b.own.leases && c.queue.burst == b.queue.burst
    && c.pressure == b.pressure && c.inflight == b.inflight && c.queue.requests == b.queue.requests
  }

  lemma {:induction false} SameServes(c: Coordinator, b: Coordinator, flags: Flags, i: nat, w: int, now: int)
    requires SameChoice(c, b) && i < |c.queue.requests|
    ensures Serves(c, flags, i, w, now) <==> Serves(b, flags, i, w, now)
    ensures forall r :: Unmet(c, flags, r, now) <==> Unmet(b, flags, r, now)
  {
    forall r: Request, d: int
      ensures Wanted(c, flags, r, d, now) <==> Wanted(b, flags, r, d, now)
    {
    }
    hide Wanted;
  }

  predicate TurnHeld(c: Coordinator, flags: Flags, now: int) {
    c.queue.reserved.Some? && TurnStands(c, flags, c.queue.reserved.value, now)
  }

  /** The demand is put; and unless a projection is under way or a turn stands, the oldest demand that can be
      served gets a device, and when none can be, no turn is reserved. */
  lemma {:induction false} TurnGoesToOldest(c: Coordinator, flags: Flags, candidates: seq<int>, purpose: Purpose,
        now: int)
    ensures !Heard(c, flags, purpose, now) ==> RequestTurn(c, flags, candidates, purpose, now) == c
    ensures Heard(c, flags, purpose, now) && (exists d <- candidates :: d in c.workers) ==>
      var after := RequestTurn(c, flags, candidates, purpose, now);
      && after.queue.requests
         == PutRequest(LiveRequests(c.queue.requests, now), purpose, Select(candidates, c.workers), now)
      && (if TurnHeld(c, flags, now) then after.queue.reserved == c.queue.reserved
          else if Projecting(c) then after.queue.reserved == None
          else match after.queue.reserved
            case None => forall r <- after.queue.requests :: Unmet(after, flags, r, now)
            case Some(w) => exists i: nat :: i < |after.queue.requests| && Serves(after, flags, i, w, now))
  {
    hide Unmet, Serves, Position, LeastLoaded, DrainCandidates, LiveRequests, PutRequest, Available, NextRequest;
    if Heard(c, flags, purpose, now) && exists d <- candidates :: d in c.workers {
      var d :| d in candidates && d in c.workers;
      assert d in Select(candidates, c.workers);
      var c1 := Refresh(c, flags, now);
      StandingTurn(c, flags, if c.queue.reserved.Some? then c.queue.reserved.value else d, now);
      RefreshQueueOnly(c, flags, now);
      RefreshReserved(c, flags, now);
      var c2 := Demanded(c1, purpose, Select(candidates, c1.workers), now);
      hide Refresh, Select, TurnStands;
      DemandedServes(c2, flags, now);
    }
  }

  /** Asking for devices that are no workers puts no demand; it only lets the queue expire. */
  lemma {:induction false} NoWorkerNoDemand(c: Coordinator, flags: Flags, candidates: seq<int>, purpose: Purpose,
        now: int)
    requires forall d <- candidates :: d !in c.workers
    ensures RequestTurn(c, flags, candidates, purpose, now)
         == if Heard(c, flags, purpose, now) then Refresh(c, flags, now) else c
  {
    hide Refresh, Demanded, DrainCandidates, Available, TakeTurn, LeastLoaded;
    RefreshQueueOnly(c, flags, now);
    NoneSelected(candidates, c.workers);
  }

  lemma {:induction false} NoneSelected(ds: seq<int>, keep: set<int>)
    requires forall d <- ds :: d !in keep
    ensures Select(ds, keep) == []
  {
    if ds != [] {
      var d := ds[0];
      assert d in ds;
      NoneSelected(ds[1..], keep);
    }
  }

  /** A projection on a device that is no worker uses up nobody's turn. */
  lemma {:induction false} OutsideTakesNoTurn(c: Coordinator, flags: Flags, d: int, purpose: Purpose, epoch: nat,
        resident: Option<nat>, reservation: nat, claim: Option<nat>, token: nat, now: int)
    requires d !in c.workers
    ensures CommitStage(c, flags, d, purpose, epoch, resident, reservation, claim, token, now).1.queue.burst
         == c.queue.burst
  {
    hide DropRequest, Refresh, NextRequest;
  }

  lemma {:induction false} RefreshReserved(c: Coordinator, flags: Flags, now: int)
    ensures Refresh(c, flags, now).queue.reserved in {None, c.queue.reserved}
  {
    hide LiveRequests, NextRequest;
  }

  lemma {:induction false} DemandedServes(c: Coordinator, flags: Flags, now: int)
    requires c.workers != {}
    ensures var choice := DrainCandidates(c, flags, c.queue.requests, Available(c), now);
      if choice == [] then forall r <- c.queue.requests :: Unmet(c, flags, r, now)
      else
        var after := TakeTurn(c, LeastLoaded(c, choice));
        && after.queue.reserved.Some? && after.queue.requests == c.queue.requests
        && exists i: nat :: i < |c.queue.requests| && Serves(after, flags, i, after.queue.reserved.value, now)
  {
    var choice := DrainCandidates(c, flags, c.queue.requests, Available(c), now);
    if choice == [] {
      DrainsOldest(c, flags, c.queue.requests, now);
    } else {
      ChoiceServes(c, flags, now);
      hide DrainCandidates, Available, Position, LeastLoaded, Serves;
      var w := LeastLoaded(c, choice);
      var i: nat :| i < |c.queue.requests| && Serves(c, flags, i, w, now);
      SameServes(c, TakeTurn(c, w), flags, i, w, now);
    }
  }

  // Round robin

  /** Going round the devices from just behind `last`, `d` comes before `next`. */
  predicate Passed(last: int, d: int, next: int) {
    last < d < next || d < next <= last || next <= last < d
  }

  lemma {:induction false} PositionsRise(c: Coordinator, a: int, b: int)
    requires a in c.workers && b in c.workers
    ensures Position(c, a) < |c.workers| && (a < b ==> Position(c, a) < Position(c, b))
  {
    var below := set w | w in c.workers && w < a;
    var more := set w | w in c.workers && w < b;
    Smaller(below, c.workers, a);
    if a < b {
      Smaller(below, more, a);
    }
  }

  lemma {:induction false} Smaller(a: set<int>, b: set<int>, x: int)
    requires a <= b && x in b && x !in a
    ensures |a| < |b|
  {
    assert b == a + (b - a) && x in b - a;
  }

  lemma {:induction false} Remainder(x: int, n: int)
    requires -n <= x <= n && n > 0
    ensures x % n == if x == n then 0 else if x >= 0 then x else if x == -n then 0 else x + n
  {
    if 0 <= x < n {
      assert x / n == 0;
    } else if x == n {
      assert x / n == 1;
    } else {
      assert x / n == -1;
    }
  }

  lemma {:induction false} RoundFrom(n: nat, p: nat, q: nat)
    requires p < n && q < n
    ensures (q - (p + 1) % n) % n == if p < q then q - p - 1 else q - p - 1 + n
  {
    Remainder(p + 1, n);
    var m := (p + 1) % n;
    Remainder(q - m, n);
  }

  lemma {:induction false} RankBehind(c: Coordinator, last: int, d: int)
    requires last in c.workers && d in c.workers
    ensures Rank(TakeTurn(c, last), d)
         == Position(c, d) - Position(c, last) - 1 + (if last < d then 0 else |c.workers|)
  {
    hide Position;
    SamePosition(c, TakeTurn(c, last));
    PositionsRise(c, last, d);
    PositionsRise(c, d, last);
    RoundFrom(|c.workers|, Position(c, last), Position(c, d));
  }

  /** Among equally loaded devices the next turn goes to the first one behind the device served last. */
  lemma {:induction false} TurnsGoRound(c: Coordinator, last: int, ds: seq<int>, d: int)
    requires last in c.workers && d in ds && forall x <- ds :: x in c.workers
    ensures var next := LeastLoaded(TakeTurn(c, last), ds);
      && next in ds && Count(c.inflight, next) <= Count(c.inflight, d)
      && (Count(c.inflight, d) == Count(c.inflight, next) ==> !Passed(last, d, next))
  {
    hide LeastLoaded, Position, Rank;
    var served := TakeTurn(c, last);
    var next := LeastLoaded(served, ds);
    assert Before(served, next, d) && next in ds;
    PositionsRise(c, last, d);
    PositionsRise(c, d, next);
    PositionsRise(c, next, d);
    RankBehind(c, last, d);
    RankBehind(c, last, next);
  }

  lemma {:induction false} SamePosition(c: Coordinator, b: Coordinator)
    requires c.workers == b.workers
    ensures forall d :: Position(c, d) == Position(b, d)
  {
  }

  // Handing over, and waiting after a failure

  predicate Holds(c: Coordinator, d: int, purpose: Purpose, token: nat) {
    d in c.own.leases && c.own.leases[d] == purpose && d in c.own.tokens && c.own.tokens[d] == token
  }

  /** Only the owner of the stage can end it or make it a residency: a call with another purpose or another token
      changes nothing and gets no claim back. */
  lemma {:induction false} OthersChangeNothing(c: Coordinator, flags: Flags, d: int, purpose: Purpose, token: nat,
        owner: nat, now: int)
    requires d !in c.own.leases || c.own.leases[d] != purpose || d !in c.own.tokens || c.own.tokens[d] != token
    ensures ReleaseStage(c, flags, d, purpose, token, now) == (None, c)
    ensures Promote(c, d, purpose, token, owner) == c
  {
    hide Refresh;
  }

  /** The device of a projection that ends stays reserved for two seconds when another reader is ready for it,
      it has a turn left and no other device is projecting. */
  lemma {:induction false} HandsOver(c: Coordinator, flags: Flags, d: int, purpose: Purpose, token: nat, now: int)
    requires Holds(c, d, purpose, token) && c.queue.reserved.None? && c.queue.handoff.None?
    ensures var after := ReleaseStage(c, flags, d, purpose, token, now).1;
      && after.own.leases == c.own.leases - {d}
      && if Heard(c, flags, purpose, now) && SomeReady(c, flags, c.queue.requests, d, now)
            && (forall w <- c.own.leases :: w != d ==> c.own.leases[w].kind != SourceProjection)
            && (d in c.queue.burst ==> c.queue.burst[d] < 2)
         then after.queue.reserved == after.queue.handoff == Some(d) && after.queue.deadline == now + 2000
         else after.queue.reserved == after.queue.handoff == None
  {
    var u := Unleased(c, d);
    NoTurn(u, flags, now);
    ScanFindsOldest(Refresh(u, flags, now), flags, c.queue.requests, d, purpose, now);
    SameReady(Refresh(u, flags, now), c, flags, c.queue.requests, d, now);
    OthersProject(c, d, Refresh(u, flags, now));
    hide Refresh, LiveRequests, NextRequest, SomeReady, Projecting;
  }

  lemma {:induction false} NoTurn(c: Coordinator, flags: Flags, now: int)
    requires c.queue.reserved.None? && c.queue.handoff.None?
    ensures var after := Refresh(c, flags, now);
      && after.queue.reserved.None? && after.queue.handoff.None? && after.queue.burst == c.queue.burst
      && after.queue.requests == LiveRequests(c.queue.requests, now) && after.queue.retryAfter == c.queue.retryAfter
      && after == c.(queue := after.queue)
  {
    hide LiveRequests;
  }

  lemma {:induction false} OthersProject(c: Coordinator, d: int, after: Coordinator)
    requires after.own.leases == c.own.leases - {d}
    ensures Projecting(after) <==> exists w <- c.own.leases :: w != d && c.own.leases[w].kind == SourceProjection
  {
    if w :| w in c.own.leases && w != d && c.own.leases[w].kind == SourceProjection {
      assert w in after.own.leases;
    }
  }

  /** After a failed probe or a demand withdrawn because it failed, all demands are gone and the queue hears
      nobody for ten seconds; then it hears again. */
  lemma {:induction false} CoolsDown(c: Coordinator, flags: Flags, failed: Purpose, candidates: seq<int>,
        purpose: Purpose, now: int, later: int)
    ensures var probe, withdrawn := FailedProbe(c, now), Cancel(c, flags, failed, true, now);
      && probe.queue.requests == withdrawn.queue.requests == []
      && probe.queue.reserved == withdrawn.queue.reserved == None
      && (later < now + 10000 ==>
            && RequestTurn(probe, flags, candidates, purpose, later) == probe
            && RequestTurn(withdrawn, flags, candidates, purpose, later) == withdrawn)
      && (now + 10000 <= later && Heard(c.(queue := Unasked), flags, purpose, 0) ==>
            Heard(probe, flags, purpose, later) && Heard(withdrawn, flags, purpose, later))
  {
    hide Demanded, DrainCandidates, TakeTurn, Available;
  }

  // Residencies

  /** A residency that is closed off after a failure admits nobody but its owner. */
  lemma {:induction false} QuarantineCloses(c: Coordinator, flags: Flags, d: int, token: nat, purpose: Purpose,
        now: int)
    requires d in c.own.residents && c.own.residents[d].token == token
    ensures var after := Quarantine(c, d, token);
      && after.own.residents[d].quarantined
      && !Admitted(after, flags, d, purpose, None, now)
      && (Admitted(after, flags, d, purpose, Some(token), now) <==> Admitted(c, flags, d, purpose, Some(token), now))
  {
    hide MayEnter;
  }

  /** A stage that becomes a residency frees the device for its owner, who can then come back to it, and keeps
      its claim; the residency ends, and the claim comes back, only between stages. */
  lemma {:induction false} ResidencyBegins(c: Coordinator, flags: Flags, d: int, purpose: Purpose, token: nat,
        owner: nat, again: Purpose, now: int)
    requires Holds(c, d, purpose, token) && d !in c.own.residents && d !in c.own.provisional
             && Count(c.inflight, d) == 0
    ensures var after := Promote(c, d, purpose, token, owner);
      && Admitted(after, flags, d, again, Some(owner), now)
      && (Admitted(after, flags, d, again, None, now)
          <==> again.kind == SourceProjection && MayEnter(after, flags, d, again, now))
      && ReleaseResidency(after, d, owner).0 == (if d in c.own.claims then Some(c.own.claims[d]) else None)
      && d !in ReleaseResidency(after, d, owner).1.own.residents
      && after.own.residents[d].purpose == purpose && !after.own.residents[d].quarantined
  {
    hide MayEnter;
  }

  lemma {:induction false} ResidencyEnds(c: Coordinator, d: int, token: nat)
    ensures var (claim, after) := ReleaseResidency(c, d, token);
      if d in c.own.residents && c.own.residents[d].token == token && d !in c.own.leases && d !in c.own.provisional
      then d !in after.own.residents && claim == c.own.residents[d].claim
      else after == c && claim == None
  {
  }

  /** Only a worker whose run is being retired, with no work waiting and nothing in flight anywhere, retires. */
  lemma {:induction false} RetiresWhenDrained(c: Coordinator, d: int, task: nat, epoch: nat)
    ensures d in c.retired ==> MarkRetired(c, d, task, epoch) == c
    ensures d !in c.retired ==>
      (d in MarkRetired(c, d, task, epoch).retired
       <==> && d in c.workers && c.retiring && !c.backlog && epoch == c.epoch
            && forall w: int :: Count(c.inflight, w) == 0)
  {
    if forall w: int :: Count(c.inflight, w) == 0 {
      forall w | w in c.inflight
        ensures c.inflight[w] == 0
      {
        assert Count(c.inflight, w) == 0;
      }
    }
  }
}
