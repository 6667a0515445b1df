/** Reconfiguring a run while a dispatch is still running. */
module GpuReconfigure {
  // Configuring forgets which dispatches are running. The two theorems here say exactly what that costs:
  // exclusion of running dispatches survives a reconfiguration if and only if none was running then.

  import opened Options
  import opened GpuStages
  import opened GpuClaims
  import opened GpuRuns

  /** No running dispatch shares its device with a stage, an admission under way, or an owner. */
  ghost predicate Exclusive(s: System) {
    forall d | d in s.running && s.running[d] > 0 ::
      d !in s.c.own.leases && d !in s.c.own.provisional && d !in s.c.own.residents
  }

  predicate NoReconfigure(es: seq<Timed>) {
    forall t <- es :: !t.e.Reconfigure?
  }

  /** A source projection admitted on `d` by thread `tid` in run `epoch`. */
  function Projection(now: int, tid: nat, d: int, epoch: nat): seq<Timed> {
    [Timed(now, ReserveStage(tid, d, Purpose(SourceProjection, 0), epoch, None)), Timed(now, TakeClaim(tid, NoPool)),
     Timed(now, Commit(tid))]
  }

  /** Right behind a reconfiguration every device looks free. */
  predicate Blank(s: System) {
    s.c.inflight == map[] && s.c.own == Unowned && !s.c.backlog && !s.c.retiring
  }

  lemma {:induction false} ConfiguredIsBlank(s: System, flags: Flags, now: int, tid: nat, workers: set<int>)
    requires ThreadOf(s, tid) == Idle && s.c.own.residents == map[]
    ensures var s' := Step(s, flags, now, Reconfigure(tid, workers));
      && Blank(s') && s'.running == s.running && s'.c.epoch == s.c.epoch + 1
      && forall other: nat | other != tid :: ThreadOf(s', other) == ThreadOf(s, other)
  {
  }

  /** The same with `d` reserved. */
  predicate Promised(s: System, d: int, reservation: nat) {
    && s.c.inflight == map[] && s.c.own == Unowned.(provisional := map[d := reservation])
    && !s.c.backlog && !s.c.retiring
  }

  lemma {:induction false} BlankReserves(s: System, flags: Flags, now: int, tid: nat, d: int)
    requires Blank(s) && ThreadOf(s, tid) == Idle
    ensures var p := Purpose(SourceProjection, 0);
            var s' := Step(s, flags, now, ReserveStage(tid, d, p, s.c.epoch, None));
      && s'.running == s.running && s'.c.epoch == s.c.epoch && Promised(s', d, s.nextId)
      && ThreadOf(s', tid) == Claiming(Attempt(d, p, s.c.epoch, None, s.nextId), false)
  {
  }

  lemma {:induction false} ClaimsNothing(s: System, flags: Flags, now: int, tid: nat)
    requires ThreadOf(s, tid).Claiming?
    ensures var s' := Step(s, flags, now, TakeClaim(tid, NoPool));
      s'.running == s.running && s'.c == s.c && ThreadOf(s', tid) == Claimed(ThreadOf(s, tid).attempt, None)
  {
  }

  lemma {:induction false} PromisedCommits(s: System, flags: Flags, now: int, tid: nat, d: int, reservation: nat)
    requires ThreadOf(s, tid) == Claimed(Attempt(d, Purpose(SourceProjection, 0), s.c.epoch, None, reservation), None)
    requires Promised(s, d, reservation)
    ensures var s' := Step(s, flags, now, Commit(tid)); s'.running == s.running && d in s'.c.own.leases
  {
    hide DropRequest;
  }

  lemma {:induction false} OneMore(flags: Flags, es: seq<Timed>, t: Timed)
    ensures Run(Start, flags, es + [t]) == Step(Run(Start, flags, es), flags, t.now, t.e)
  {
    hide Step;
    assert (es + [t])[..|es|] == es;
  }

  /** After a reconfiguration that a dispatch on `d` was running through, any idle thread can lease `d`
      while the dispatch is still running. */
  lemma {:induction false} SharedAfterReconfigure(flags: Flags, es: seq<Timed>, now: int, tid: nat, workers: set<int>,
                                                  other: nat, d: int)
    requires var s := Run(Start, flags, es);
      && ThreadOf(s, tid) == Idle && s.c.own.residents == map[] && ThreadOf(s, other) == Idle && other != tid
    ensures var s := Run(Start, flags, es);
            var s' := Run(Start, flags, es + [Timed(now, Reconfigure(tid, workers))]
                                        + Projection(now, other, d, s.c.epoch + 1));
            s'.running == s.running && d in s'.c.own.leases
  {
    hide *;
    var s, t := Run(Start, flags, es), Timed(now, Reconfigure(tid, workers));
    OneMore(flags, es, t);
    ConfiguredIsBlank(s, flags, now, tid, workers);
    var es1, s1 := es + [t], Run(Start, flags, es + [t]);
    ProjectionShares(flags, es1, now, other, d);
  }

  lemma {:induction false} ProjectionShares(flags: Flags, es: seq<Timed>, now: int, tid: nat, d: int)
    requires Blank(Run(Start, flags, es)) && ThreadOf(Run(Start, flags, es), tid) == Idle
    ensures var s := Run(Start, flags, es);
            var s' := Run(Start, flags, es + Projection(now, tid, d, s.c.epoch));
            s'.running == s.running && d in s'.c.own.leases
  {
    hide Run, Step, Blank, Promised;
    var s := Run(Start, flags, es);
    var ts := Projection(now, tid, d, s.c.epoch);
    BlankReserves(s, flags, now, tid, d);
    OneMore(flags, es, ts[0]);
    var s1 := Run(Start, flags, es + [ts[0]]);
    ClaimsNothing(s1, flags, now, tid);
    OneMore(flags, es + [ts[0]], ts[1]);
    var s2 := Run(Start, flags, es + [ts[0]] + [ts[1]]);
    StillPromised(s1, s2, d, s.nextId);
    PromisedCommits(s2, flags, now, tid, d, s.nextId);
    OneMore(flags, es + [ts[0]] + [ts[1]], ts[2]);
    assert es + [ts[0]] + [ts[1]] + [ts[2]] == es + ts;
  }

  lemma {:induction false} StillPromised(s: System, s': System, d: int, reservation: nat)
    requires Promised(s, d, reservation) && s'.c == s.c
    ensures Promised(s', d, reservation)
  {
  }

  lemma {:induction false} StaysSettled(flags: Flags, es: seq<Timed>, more: seq<Timed>)
    requires SettledRun(flags, es) && NoReconfigure(more)
    ensures SettledRun(flags, es + more)
    decreases |more|
  {
    hide Settled, Run;
    if more == [] {
      assert es + more == es;
    } else {
      var init := more[..|more| - 1];
      StaysSettled(flags, es, init);
      assert (es + more)[..|es + more| - 1] == es + init && more[|more| - 1] in more;
    }
  }

  lemma {:induction false} SettledIsExclusive(flags: Flags, es: seq<Timed>)
    requires SettledRun(flags, es)
    ensures Exclusive(Run(Start, flags, es))
  {
    var s := Run(Start, flags, es);
    hide Run, SettledRun, Counted;
    forall d | d in s.running && s.running[d] > 0
      ensures d !in s.c.own.leases && d !in s.c.own.provisional && d !in s.c.own.residents
    {
      RunningDispatchOwnsDevice(flags, es, d);
    }
  }

  lemma {:induction false} OneMoreSettled(flags: Flags, es: seq<Timed>, t: Timed)
    requires SettledRun(flags, es) && Settled(Run(Start, flags, es))
    ensures SettledRun(flags, es + [t])
  {
    hide Settled, Run;
    assert (es + [t])[..|es|] == es;
  }

  lemma {:induction false} UnsettledShares(flags: Flags, es: seq<Timed>, now: int, tid: nat, workers: set<int>,
        other: nat)
    returns (more: seq<Timed>)
    requires var s := Run(Start, flags, es);
      && ThreadOf(s, tid) == Idle && s.c.own.residents == map[] && ThreadOf(s, other) == Idle && other != tid
          && !Settled(s)
    ensures NoReconfigure(more)
    ensures !Exclusive(Run(Start, flags, es + [Timed(now, Reconfigure(tid, workers))] + more))
  {
    hide Run, ThreadOf;
    var s := Run(Start, flags, es);
    var d :| d in s.running && s.running[d] != 0;
    more := Projection(now, other, d, s.c.epoch + 1);
    SharedAfterReconfigure(flags, es, now, tid, workers, other, d);
  }

  /** A run reconfigured between dispatches so far, and now once more: running dispatches keep their
      devices to themselves, however the run goes on, if and only if none was running then. */
  lemma {:induction false} ExclusiveExactlyWhenSettled(flags: Flags, es: seq<Timed>, now: int, tid: nat,
        workers: set<int>, other: nat)
    requires SettledRun(flags, es)
    requires var s := Run(Start, flags, es);
      && ThreadOf(s, tid) == Idle && s.c.own.residents == map[] && ThreadOf(s, other) == Idle && other != tid
    ensures var t := Timed(now, Reconfigure(tid, workers));
            (forall more | NoReconfigure(more) :: Exclusive(Run(Start, flags, es + [t] + more)))
            <==> Settled(Run(Start, flags, es))
  {
    hide *;
    var t := Timed(now, Reconfigure(tid, workers));
    if Settled(Run(Start, flags, es)) {
      OneMoreSettled(flags, es, t);
      forall more | NoReconfigure(more)
        ensures Exclusive(Run(Start, flags, es + [t] + more))
      {
        StaysSettled(flags, es + [t], more);
        SettledIsExclusive(flags, es + [t] + more);
      }
    } else {
      var more := UnsettledShares(flags, es, now, tid, workers, other);
    }
  }
}
