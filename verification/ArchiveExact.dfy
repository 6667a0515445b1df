/** Exactly which workloads are crash safe. */
module ArchiveExact {
  import opened ArchiveFormat
  import opened Options
  import opened ArchiveLayout
  import opened ArchiveLog
  import opened ArchiveTail
  import opened ArchiveRuns
  import opened ArchiveSafety
  import opened ArchiveTorn

  /** The member lists that a workload may hand to an append. */
  type Workload = iset<seq<Member>>

  ghost predicate SoundRun(s: System, es: seq<Append>) {
    es != [] ==> SoundRun(s, es[..|es| - 1]) && Sound(Run(s, es[..|es| - 1]), es[|es| - 1])
  }

  ghost predicate Draws(es: seq<Append>, w: Workload) {
    forall e <- es :: e.t.members in w
  }

  /** A scan fails, or returns exactly the fold of the committed transactions. */
  ghost predicate Exact(s: System) {
    LogOk(s.log) && (Scan(s.blocks) == ArchiveError || Scan(s.blocks) == Ok(LogEntries(s.log), |LogBlocks(s.log)|))
  }

  ghost predicate CrashSafe(w: Workload) {
    forall es: seq<Append> | SoundRun(Empty, es) && Draws(es, w) :: Exact(Run(Empty, es))
  }

  /** These members in a transaction whose record is the shortest they can have. */
  function Sample(ms: seq<Member>): Transaction {
    Transaction(0, true, ms)
  }

  /** An append of these members passes the admission checks of an empty archive. */
  predicate Appendable(ms: seq<Member>) {
    (forall m <- ms :: WellFormedMember(m)) && !Refused(map[], Sample(ms), None)
  }

  /** An append of these members can commit: its record is within the metadata budget. */
  predicate Committable(ms: seq<Member>) {
    Appendable(ms) && InBudget(Sample(ms))
  }

  lemma {:induction false} RefusedEverywhere(entries: map<string, Entry>, t: Transaction, prefix: Option<string>)
    requires Refused(map[], Sample(t.members), None)
    ensures Refused(entries, t, prefix)
  {
    var none: map<string, Entry> := map[];
    var names := set m <- t.members :: m.name;
    assert none.Keys + names == names;
    if name, other :| name in names && other in names && (Under(other, name) || Under(name, other)) {
      assert other in entries.Keys + names;
    }
  }

  lemma {:induction false} SignedStepKeeps(s: System, e: Append)
    requires Inv(s) && Sound(s, e)
    requires Committable(e.t.members) ==> SignsFirstHeader(e.t)
    ensures Inv(Next(s, e))
  {
    hide RowsLength;
    if Appendable(e.t.members) {
      AppendKeeps(s, e);
    } else {
      hide Inv;
      if Scan(s.blocks).Ok? {
        RefusedEverywhere(Scan(s.blocks).entries, e.t, e.prefix);
      }
    }
  }

  lemma {:induction false} SignedRunKeeps(es: seq<Append>, w: Workload)
    requires SoundRun(Empty, es) && Draws(es, w)
    requires forall ms <- w | Committable(ms) :: SignsFirstHeader(Sample(ms))
    ensures Inv(Run(Empty, es))
  {
    hide Inv, Sound, Next, Committable;
    if es == [] {
      EmptyInv();
    } else {
      var last := es[|es| - 1];
      SignedRunKeeps(es[..|es| - 1], w);
      assert SignsFirstHeader(Sample(last.t.members)) ==> SignsFirstHeader(last.t);
      SignedStepKeeps(Run(Empty, es[..|es| - 1]), last);
    }
  }

  lemma {:induction false} SoundPair(e: Append, f: Append)
    requires Sound(Empty, e) && Sound(Next(Empty, e), f)
    ensures SoundRun(Empty, [e, f])
  {
    hide Sound, Next;
    assert [e, f][..1] == [e] && [e][..0] == [];
    assert Run(Empty, []) == Empty && Run(Empty, [e]) == Next(Run(Empty, []), e);
    assert SoundRun(Empty, [e]);
  }

  lemma {:induction false} RetryIsSound(t: Transaction, retry: nat)
    requires WellFormed(t) && InBudget(t) && !Refused(map[], t, None) && retry != t.id
    ensures |TxBlocks(t)| >= 3
    ensures SoundRun(Empty, [Append(t, None, Raise(|TxBlocks(t)|, 2)), Append(t.(id := retry), None, Die(2))])
  {
    hide Next, Refused, TxBlocks, SoundRun, WellFormedMember, Under, HeaderBlocks, Payload;
    TxLength(t);
    FirstFails(t);
    SoundPair(Append(t, None, Raise(|TxBlocks(t)|, 2)), Append(t.(id := retry), None, Die(2)));
  }

  /** A workload with an unsigned first header has a failed append and a torn retry that
      publish what never committed. */
  lemma {:induction false} UnsignedRunBreaks(ms: seq<Member>, w: Workload)
    requires ms in w && Committable(ms) && !SignsFirstHeader(Sample(ms))
    ensures !CrashSafe(w)
  {
    var t := Sample(ms);
    var es := [Append(t, None, Raise(|TxBlocks(t)|, 2)), Append(t.(id := 1), None, Die(2))];
    WellFormedSample(ms);
    UnsignedHeaderRevives(t, 1);
    RetryIsSound(t, 1);
    hide *;
    Phantom(Run(Empty, es), EntriesOf(t, 0), |TxBlocks(t)|, ms[0].name);
    DrawnPair(es[0], es[1], ms, w);
    Counterexample(es, w);
  }

  lemma {:induction false} DrawnPair(e: Append, f: Append, ms: seq<Member>, w: Workload)
    requires ms in w && e.t.members == ms && f.t.members == ms
    ensures Draws([e, f], w)
  {
  }

  lemma {:induction false} Counterexample(es: seq<Append>, w: Workload)
    requires SoundRun(Empty, es) && Draws(es, w) && !Exact(Run(Empty, es))
    ensures !CrashSafe(w)
  {
    hide SoundRun, Draws, Exact, Run;
  }

  lemma {:induction false} WellFormedSample(ms: seq<Member>)
    requires Appendable(ms)
    ensures WellFormed(Sample(ms))
    ensures !Refused(map[], Sample(ms), None)
  {
  }

  lemma {:induction false} Phantom(s: System, entries: map<string, Entry>, end: nat, name: string)
    requires s.log == [] && Scan(s.blocks) == Ok(entries, end) && name in entries
    ensures !Exact(s)
  {
    hide Scan;
    assert LogEntries([]) == map[];
  }

  /** A workload is crash safe exactly when every member list in it that an append could
      commit begins with a member whose name does not fit the ustar header or whose size does. */
  lemma {:induction false} CrashSafeWhenSigned(w: Workload)
    ensures CrashSafe(w) <==> forall ms <- w | Committable(ms) :: SignsFirstHeader(Sample(ms))
  {
    hide Committable, SignsFirstHeader, Exact, SoundRun, Draws, Inv, Scan;
    if forall ms <- w | Committable(ms) :: SignsFirstHeader(Sample(ms)) {
      forall es: seq<Append> | SoundRun(Empty, es) && Draws(es, w)
        ensures Exact(Run(Empty, es))
      {
        SignedRunKeeps(es, w);
        InvIsExact(Run(Empty, es));
      }
    } else {
      var ms :| ms in w && Committable(ms) && !SignsFirstHeader(Sample(ms));
      UnsignedRunBreaks(ms, w);
    }
  }

  lemma {:induction false} InvIsExact(s: System)
    requires Inv(s)
    ensures Exact(s)
  {
    ScanIsExact(s);
  }
}
