/** The coordinator as an object whose lock sections update its fields one by one. */
module GpuCoordinators {
  import opened Options
  import G = GpuStages
  import R = GpuRules

  class StageCoordinator {
    const flags: G.Flags
    var workers: set<int>
    var inflight: map<int, nat>
    var leases: map<int, G.Purpose>
    var tokens: map<int, nat>
    var claims: map<int, nat>
    var residents: map<int, G.Resident>
    var provisional: map<int, nat>
    var epoch: nat
    var priority: bool
    var retiring: bool
    var retired: map<int, nat>
    var backlog: bool
    var pressure: bool
    var requests: seq<G.Request>
    var reserved: Option<int>
    var handoff: Option<int>
    var deadline: int
    var burst: map<int, nat>
    var cursor: nat
    var retryAfter: int

    function Owns(): G.Owners
      reads `leases, `tokens, `claims, `residents, `provisional
    {
      G.Owners(leases, tokens, claims, residents, provisional)
    }

    function Turns(): G.Queue
      reads `requests, `reserved, `handoff, `deadline, `burst, `cursor, `retryAfter
    {
      G.Queue(requests, reserved, handoff, deadline, burst, cursor, retryAfter)
    }

    function View(): G.Coordinator
      reads this
    {
      G.Coordinator(workers, inflight, epoch, priority, retiring, retired, backlog, pressure, Owns(), Turns())
    }

    /** Everything but the epoch and the workers is as in a fresh coordinator. */
    predicate Restarted(workers': set<int>)
      reads this
    {
      && Owns() == G.Unowned && Turns() == G.Unasked
      && workers == workers' && priority == (workers' != {})
      && inflight == map[] && !retiring && retired == map[] && !backlog && !pressure
    }

    lemma {:induction false} RestartedIsConfigured(c: G.Coordinator, workers': set<int>)
      requires Restarted(workers') && epoch == c.epoch + 1 && c.own.residents == map[]
      ensures View() == G.Configure(c, workers')
    {
    }

    constructor (flags: G.Flags)
      ensures View() == G.Initial && this.flags == flags
    {
      this.flags := flags;
      workers, inflight, leases, tokens, claims, residents, provisional := {}, map[], map[], map[], map[], map[], map[];
      epoch, priority, retiring, retired, backlog, pressure := 0, false, false, map[], false, false;
      requests, reserved, handoff, deadline, burst, cursor, retryAfter := [], None, None, 0, map[], 0, 0;
    }

    method ClearTurn()
      modifies `reserved, `handoff, `deadline
      ensures View() == G.ClearTurn(old(View()))
    {
      reserved, handoff, deadline := None, None, 0;
    }

    /** Keep the demands that have not expired, in order. */
    method DropExpired(now: int)
      modifies `requests
      ensures View() == old(View()).(queue := old(View()).queue.(requests := G.LiveRequests(old(requests), now)))
    {
      var live: seq<G.Request> := [];
      var i := |requests|;
      assert requests[i..] == [];
      while i > 0
        invariant i <= |requests| && requests == old(requests)
        invariant live == G.LiveRequests(requests[i..], now)
      {
        i := i - 1;
        assert requests[i..][1..] == requests[i + 1..];
        live := (if requests[i].expiry > now then [requests[i]] else []) + live;
      }
      assert requests[0..] == requests;
      requests := live;
    }

    method Refresh(now: int) returns (device: Option<int>)
      modifies this
      ensures View() == G.Refresh(old(View()), flags, now) && device == reserved
    {
      DropExpired(now);
      var blocked := requests == [] || !flags.pressureRetirement || retiring || !backlog;
      if !blocked && reserved.Some? {
        blocked := G.NextRequest(View(), flags, requests, reserved.value, now).None?;
      }
      if blocked {
        ClearTurn();
      } else if handoff.Some? && now >= deadline {
        var d := handoff.value;
        burst := burst[d := if G.Count(burst, d) < G.TURNS then G.TURNS else G.Count(burst, d)];
        ClearTurn();
      }
      device := reserved;
    }

    method BeginInference(d: int, now: int) returns (ok: bool)
      modifies this
      ensures (ok, View()) == G.BeginInference(old(View()), flags, d, now)
      ensures ok <==> && d !in old(retired) && d !in old(residents) && d !in old(provisional) && d !in old(leases)
                      && !R.TurnStands(old(View()), flags, d, now)
    {
      R.DispatchedWhenFree(View(), flags, d, now);
      hide G.Refresh, G.Count;
      if d in retired || d in residents || d in provisional {
        return false;
      }
      var turn := Refresh(now);
      if turn == Some(d) || d in leases {
        return false;
      }
      inflight := inflight[d := G.Count(inflight, d) + 1];
      burst := burst - {d};
      return true;
    }

    method FinishInference(d: int)
      modifies this
      ensures View() == G.FinishInference(old(View()), d)
    {
      var remaining := G.Count(inflight, d) - 1;
      if remaining > 0 {
        inflight := inflight[d := remaining];
      } else {
        inflight := inflight - {d};
      }
    }

    method PriorityBlocks(d: int, purpose: G.Purpose, now: int) returns (blocked: bool)
      modifies this
      ensures (blocked, View()) == G.PriorityBlocks(old(View()), flags, d, purpose, now)
      ensures blocked <==> !R.MayEnter(old(View()), flags, d, purpose, now)
      ensures inflight == old(inflight)
    {
      R.BlocksUnless(View(), flags, d, purpose, now);
      if retiring && d in workers {
        return !(d in retired && purpose.kind == G.Sam);
      }
      if purpose.kind == G.SourceProjection {
        if !backlog || d !in workers {
          return false;
        }
        var turn := Refresh(now);
        return turn != Some(d) || G.NextRequest(View(), flags, requests, d, now) != Some(purpose)
            || G.Projecting(View());
      }
      if flags.overlap && purpose.kind == G.Backprojection && !backlog {
        return false;
      }
      return priority && d in workers;
    }

    method StageEligible(d: int, purpose: G.Purpose, reservation: Option<nat>, residentToken: Option<nat>,
          now: int) returns (ok: bool)
      modifies this
      ensures (ok, View()) == G.StageEligible(old(View()), flags, d, purpose, reservation, residentToken, now)
    {
      hide G.PriorityBlocks;
      if residentToken.Some? {
        if d !in residents || residents[d].token != residentToken.value {
          return false;
        }
      } else if d in residents && !(residents[d].lendable && purpose.kind == G.SourceProjection) {
        return false;
      }
      if d in leases || (d in provisional && reservation != Some(provisional[d])) {
        return false;
      }
      if residentToken.None? {
        var blocked := PriorityBlocks(d, purpose, now);
        if blocked {
          return false;
        }
      }
      return G.Count(inflight, d) == 0;
    }

    /** First phase of a claim: reserve the device under the lock. */
    method Reserve(d: int, purpose: G.Purpose, epoch': nat, residentToken: Option<nat>, reservation: nat,
          now: int) returns (ok: bool)
      modifies this
      ensures (ok, View()) == G.Reserve(old(View()), flags, d, purpose, epoch', residentToken, reservation, now)
      ensures ok <==> && epoch' == old(epoch) && d !in old(provisional)
                      && R.Admitted(old(View()), flags, d, purpose, residentToken, now)
    {
      R.ReservedWhenAdmitted(View(), flags, d, purpose, epoch', residentToken, reservation, now);
      if epoch != epoch' {
        return false;
      }
      ok := StageEligible(d, purpose, None, residentToken, now);
      if ok {
        provisional := provisional[d := reservation];
      }
    }

    method RecordProjection(d: int, purpose: G.Purpose)
      modifies this
      ensures View() == G.RecordProjection(old(View()), d, purpose)
    {
      if d in workers {
        burst := burst[d := G.Count(burst, d) + 1];
      }
      requests := G.DropRequest(requests, purpose);
      ClearTurn();
    }

    method InstallLease(d: int, purpose: G.Purpose, token: nat, claim: Option<nat>)
      modifies `leases, `tokens, `claims, `provisional
      ensures Owns() == G.Leased(old(View()), d, purpose, token, claim).own
    {
      leases := leases[d := purpose];
      tokens := tokens[d := token];
      provisional := provisional - {d};
      if claim.Some? {
        claims := claims[d := claim.value];
      }
    }

    /** Second phase: re-check everything, install the lease and take over the claim. */
    method CommitStage(d: int, purpose: G.Purpose, epoch': nat, residentToken: Option<nat>, reservation: nat,
                       claim: Option<nat>, token: nat, now: int) returns (ok: bool)
      modifies this
      ensures (ok, View()) == G.CommitStage(old(View()), flags, d, purpose, epoch', residentToken, reservation, claim,
              token, now)
      ensures ok <==> && epoch' == old(epoch) && d in old(provisional) && old(provisional)[d] == reservation
                      && R.Admitted(old(View()), flags, d, purpose, residentToken, now)
    {
      R.CommittedWhenAdmitted(View(), flags, d, purpose, epoch', residentToken, reservation, claim, token, now);
      hide G.StageEligible, G.RecordProjection;
      if epoch != epoch' || d !in provisional || provisional[d] != reservation {
        return false;
      }
      ok := StageEligible(d, purpose, Some(reservation), residentToken, now);
      if ok {
        InstallLease(d, purpose, token, claim);
        if purpose.kind == G.SourceProjection {
          RecordProjection(d, purpose);
        }
      }
    }

    method PopReservation(d: int, reservation: nat)
      modifies this
      ensures View() == G.PopReservation(old(View()), d, reservation)
    {
      if d in provisional && provisional[d] == reservation {
        provisional := provisional - {d};
      }
    }

    method DropLease(d: int)
      modifies `leases, `tokens, `claims
      ensures View() == G.Unleased(old(View()), d)
    {
      leases, tokens, claims := leases - {d}, tokens - {d}, claims - {d};
    }

    method HandOver(d: int, now: int)
      modifies `reserved, `handoff, `deadline
      ensures View() == G.HandedOver(old(View()), d, now)
    {
      reserved, handoff, deadline := Some(d), Some(d), now + G.CLAIM_WINDOW;
    }

    /** Release the exact stage; the claim, if any, is for the caller to give back. */
    method ReleaseStage(d: int, purpose: G.Purpose, token: nat, now: int) returns (claim: Option<nat>)
      modifies this
      ensures (claim, View()) == G.ReleaseStage(old(View()), flags, d, purpose, token, now)
    {
      hide G.Refresh, G.NextRequest, G.Projecting, G.Count;
      claim := None;
      if d in leases && leases[d] == purpose && d in tokens && tokens[d] == token {
        claim := G.ClaimAt(claims, d);
        DropLease(d);
        var turn := Refresh(now);
        if purpose.kind == G.SourceProjection && turn.None? && backlog && !retiring && now >= retryAfter
           && flags.pressureRetirement && !G.Projecting(View()) && G.Count(burst, d) < G.TURNS
           && G.NextRequest(View(), flags, requests, d, now).Some? {
          HandOver(d, now);
        }
      }
    }

    method PromoteResidency(d: int, purpose: G.Purpose, token: nat, residentToken: nat) returns (ok: bool)
      modifies this
      ensures ok == G.CanPromote(old(View()), d, purpose, token)
      ensures View() == G.Promote(old(View()), d, purpose, token, residentToken)
    {
      if d in residents || d !in tokens || tokens[d] != token || d !in leases || leases[d] != purpose {
        return false;
      }
      var owner := G.Resident(residentToken, purpose, true, false, G.ClaimAt(claims, d));
      DropLease(d);
      residents := residents[d := owner];
      return true;
    }

    method ReleaseResidency(d: int, token: nat) returns (claim: Option<nat>)
      modifies this
      ensures (claim, View()) == G.ReleaseResidency(old(View()), d, token)
    {
      claim := None;
      if d in residents && residents[d].token == token && d !in leases && d !in provisional {
        claim := residents[d].claim;
        residents := residents - {d};
      }
    }

    method MarkRetired(d: int, task: nat, proofEpoch: nat)
      modifies this
      ensures View() == G.MarkRetired(old(View()), d, task, proofEpoch)
    {
      if proofEpoch == epoch && d in workers && d !in retired && retiring && !backlog
         && (forall w <- inflight :: inflight[w] == 0) {
        retired := retired[d := task];
      }
    }

    method RestartTurns()
      modifies `backlog, `pressure, `requests, `reserved, `handoff, `deadline, `burst, `cursor, `retryAfter
      ensures !backlog && !pressure && Turns() == G.Unasked
    {
      ClearTurn();
      backlog, pressure, requests, burst, cursor, retryAfter := false, false, [], map[], 0, 0;
    }

    method OpenRun(workers': set<int>)
      modifies `priority, `epoch, `workers, `retiring, `retired
      ensures priority == (workers' != {}) && epoch == old(epoch) + 1 && workers == workers'
      ensures !retiring && retired == map[]
    {
      priority := workers' != {};
      epoch := epoch + 1;
      workers := workers';
      retiring, retired := false, map[];
    }

    method DropStages()
      modifies `claims, `tokens, `provisional, `inflight, `leases
      ensures Owns() == G.Owners(map[], map[], map[], residents, map[]) && inflight == map[]
    {
      claims, tokens, provisional, inflight, leases := map[], map[], map[], map[], map[];
    }

    method Restart(workers': set<int>)
      requires residents == map[]
      modifies this
      ensures Restarted(workers') && epoch == old(epoch) + 1
    {
      OpenRun(workers');
      DropStages();
      RestartTurns();
    }

    /** Start over for a new set of workers; the claims are for the caller to give back. */
    method Configure(workers': set<int>) returns (ok: bool, given: map<int, nat>)
      modifies this
      ensures ok == (old(residents) == map[])
      ensures View() == G.Configure(old(View()), workers')
      ensures given == if ok then old(claims) else map[]
    {
      hide G.Configure;
      if residents != map[] {
        ConfigureRefused(View(), workers');
        return false, map[];
      }
      ok, given := true, claims;
      Restart(workers');
      RestartedIsConfigured(old(View()), workers');
    }

    static lemma {:induction false} ConfigureRefused(c: G.Coordinator, workers': set<int>)
      requires c.own.residents != map[]
      ensures G.Configure(c, workers') == c
    {
    }

    method PutDemand(purpose: G.Purpose, devices: seq<int>, now: int)
      modifies `requests
      ensures View() == G.Demanded(old(View()), purpose, devices, now)
    {
      requests := G.PutRequest(requests, purpose, devices, now);
    }

    method TakeTurn(d: int)
      requires workers != {}
      modifies `cursor, `reserved
      ensures View() == G.TakeTurn(old(View()), d)
    {
      cursor := (G.Position(View(), d) + 1) % |workers|;
      reserved := Some(d);
    }

    /** Ask for a retirement turn, and choose the next worker to drain when none is. */
    method RequestTurn(candidates: seq<int>, purpose: G.Purpose, now: int)
      modifies this
      ensures View() == G.RequestTurn(old(View()), flags, candidates, purpose, now)
    {
      hide G.Refresh, G.PutRequest, G.Select, G.Projecting, G.DrainCandidates, G.LeastLoaded, G.Position;
      if purpose.kind != G.SourceProjection || !backlog || retiring || now < retryAfter || !flags.pressureRetirement {
        return;
      }
      var prior := Refresh(now);
      var devices := G.Select(candidates, workers);
      if devices == [] {
        return;
      }
      PutDemand(purpose, devices, now);
      if G.Projecting(View()) || prior.Some? {
        return;
      }
      var choice := G.DrainCandidates(View(), flags, requests, G.Available(View()), now);
      if choice != [] {
        assert choice[0] in choice;
        var d := G.LeastLoaded(View(), choice);
        TakeTurn(d);
      }
    }
  }
}
