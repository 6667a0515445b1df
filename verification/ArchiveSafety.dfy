/** The crash-safety theorems of the archive. */
module ArchiveSafety {
  import opened ArchiveFormat
  import opened Options
  import opened ArchiveLog
  import opened ArchiveTail
  import opened ArchiveRuns

  lemma {:induction false} SoundIsAdmitted(s: System, e: Append)
    requires Inv(s) && Sound(s, e) && !Refused(LogEntries(s.log), e.t, e.prefix)
    ensures WellFormed(e.t) && (InBudget(e.t) ==> Admits(e.t, LogEntries(s.log)))
  {
    var entries := LogEntries(s.log);
    hide Inv, Under, InBudget;
    forall m | m in e.t.members && !e.t.replace
      ensures m.name !in entries
    {
      assert m.name in set u <- e.t.members :: u.name;
    }
  }

  /** What is admitted is sound, and may commit when its record is within the budget. */
  lemma {:induction false} AdmittedIsSound(s: System, e: Append)
    requires Inv(s) && Legal(s, e) && !Refused(LogEntries(s.log), e.t, e.prefix)
    ensures WellFormed(e.t) && (forall a <- s.attempts :: a.t.id != e.t.id)
    ensures InBudget(e.t) ==> Admits(e.t, LogEntries(s.log)) && SignsFirstHeader(e.t)
  {
    SoundIsAdmitted(s, e);
    hide Inv, Refused, InBudget, SignsFirstHeader, Admits;
  }

  lemma {:induction false} WhenAdmitted(s: System, e: Append)
    requires Inv(s)
    ensures |LogBlocks(s.log)| <= |s.blocks|
    ensures Next(s, e) == s
         || (&& !Refused(LogEntries(s.log), e.t, e.prefix)
             && Next(s, e) == Written(s, |LogBlocks(s.log)|, e.t, Budgeted(e.t, e.fault)))
    ensures Scan(s.blocks).Ok? && !Refused(LogEntries(s.log), e.t, e.prefix) ==>
              Next(s, e) == Written(s, |LogBlocks(s.log)|, e.t, Budgeted(e.t, e.fault))
  {
    ScanIsExact(s);
    hide Scan, Refused, LogBlocks, LogEntries, Written, Budgeted, LogOk, Leftovers, Distinct, Doomed, Signed;
  }

  /** Every legal append, however it ends, keeps the invariant. */
  lemma {:induction false} AppendKeeps(s: System, e: Append)
    requires Inv(s) && Legal(s, e)
    ensures Inv(Next(s, e))
  {
    WhenAdmitted(s, e);
    if !Refused(LogEntries(s.log), e.t, e.prefix) {
      AdmittedIsSound(s, e);
      hide Next, Inv, Legal, Refused, Budgeted, LogBlocks, LogEntries, Written, Admits, SignsFirstHeader, InBudget;
      WritingKeeps(s, e.t, e.fault);
    }
  }

  lemma {:induction false} WritingKeeps(s: System, t: Transaction, fault: Fault)
    requires Inv(s) && WellFormed(t) && (forall b <- s.attempts :: b.t.id != t.id)
    requires InBudget(t) ==> Admits(t, LogEntries(s.log)) && SignsFirstHeader(t)
    ensures |LogBlocks(s.log)| <= |s.blocks| && Inv(Written(s, |LogBlocks(s.log)|, t, Budgeted(t, fault)))
  {
    hide LogOk, Leftovers, Distinct, Doomed, Signed, LogBlocks, LogEntries, TxBlocks, DataBlocks, Overlay, WellFormed;
    hide SignsFirstHeader, InBudget, Admits;
    var end := |LogBlocks(s.log)|;
    assert end <= |s.blocks|;
    BudgetedIsShort(t, fault);
    hide Inv, Budgeted;
    match Budgeted(t, fault)
    case Before(z) => BeforeKeeps(s, z);
    case NoFault =>
      assert First(Script(t), |Script(t)|) == Script(t);
      WrittenKeeps(s, t, |Script(t)|);
    case Die(k) => WrittenKeeps(s, t, k);
    case Raise(k, z) =>
      if z == 0 {
        WrittenKeeps(s, t, k);
        NothingRewritten(AppendBlocks(s.blocks, end, t, Die(k)), end);
      } else {
        FooterZeroed(s);
        RollbackKeeps(s.(blocks := Zeroed(s.blocks, end)), t, k, z);
      }
  }

  /** An append over the budget never reaches its commit record. */
  lemma {:induction false} BudgetedIsShort(t: Transaction, fault: Fault)
    ensures match Budgeted(t, fault)
            case NoFault => InBudget(t)
            case Before(_) => true
            case Die(k) => InBudget(t) || ShortOfCommit(t, k)
            case Raise(k, _) => InBudget(t) || ShortOfCommit(t, k)
    ensures !InBudget(t) ==> |DataBlocks(t.id, t.members)| < |TxBlocks(t)|
  {
    hide DataBlocks, InBudget;
  }

  lemma {:induction false} NothingRewritten(blocks: seq<Block>, end: nat)
    requires end <= |blocks|
    ensures Overlay(blocks, end, First(Footer, 0)) == blocks
  {
  }

  lemma {:induction false} BeforeKeeps(s: System, z: nat)
    requires Inv(s)
    ensures var end := |LogBlocks(s.log)|;
            Inv(s.(blocks := if At(s.blocks, end, Footer) then s.blocks else Overlay(s.blocks, end, First(Footer, z))))
  {
    var end := |LogBlocks(s.log)|;
    if !At(s.blocks, end, Footer) {
      if z == 0 {
        NothingRewritten(s.blocks, end);
      } else {
        FirstZeros(z);
        ZeroingKeeps(s, First(Footer, z));
      }
    }
  }

  lemma {:induction false} WrittenKeeps(s: System, t: Transaction, k: nat)
    requires Inv(s) && WellFormed(t) && (forall b <- s.attempts :: b.t.id != t.id)
    requires InBudget(t) ==> Admits(t, LogEntries(s.log)) && SignsFirstHeader(t)
    requires InBudget(t) || (ShortOfCommit(t, k) && |DataBlocks(t.id, t.members)| < |TxBlocks(t)|)
    ensures var end := |LogBlocks(s.log)|;
            var blocks := Overlay(Zeroed(s.blocks, end), end, First(Script(t), k));
            Inv(if |TxBlocks(t)| <= k then System(blocks, s.log + [t], s.attempts)
                else System(blocks, s.log, s.attempts + [Attempt(end, t)]))
  {
    FooterZeroed(s);
    var s' := s.(blocks := Zeroed(s.blocks, |LogBlocks(s.log)|));
    hide Inv, Zeroed, LogBlocks, LogEntries, Script, TxBlocks, DataBlocks, InBudget, Admits, SignsFirstHeader;
    if |TxBlocks(t)| <= k {
      CommitKeeps(s', t, k);
    } else {
      PartialKeeps(s', t, k);
    }
  }

  lemma {:induction false} RunKeeps(es: seq<Append>)
    requires LegalRun(Empty, es)
    ensures Inv(Run(Empty, es))
  {
    hide Inv, Legal, Next;
    if es == [] {
      EmptyInv();
    } else {
      RunKeeps(es[..|es| - 1]);
      AppendKeeps(Run(Empty, es[..|es| - 1]), es[|es| - 1]);
    }
  }

  lemma {:induction false} EmptyInv()
    ensures Inv(Empty)
  {
  }

  /** Crash safety: after any run of appends, each committed, rolled back or cut at any
      write, a scan fails or returns exactly the fold of the committed transactions, and
      every entry it returns reads back the bytes its writer handed over. */
  lemma {:induction false} CrashSafety(es: seq<Append>)
    requires LegalRun(Empty, es)
    ensures var s := Run(Empty, es);
            && LogOk(s.log)
            && (Scan(s.blocks) == ArchiveError || Scan(s.blocks) == Ok(LogEntries(s.log), |LogBlocks(s.log)|))
            && (forall name <- LogEntries(s.log) :: Readable(s.blocks, LogEntries(s.log)[name]))
  {
    RunKeeps(es);
    var s := Run(Empty, es);
    ScanIsExact(s);
    hide Run, LegalRun, Scan;
    forall name | name in LogEntries(s.log)
      ensures Readable(s.blocks, LogEntries(s.log)[name])
    {
      LogReadable(s.blocks, s.log, name);
    }
  }

  /** What has committed stays: later appends only extend the log and never touch its blocks. */
  lemma {:induction false} CommittedPrefixStays(s: System, e: Append)
    requires Inv(s) && Legal(s, e)
    ensures s.log <= Next(s, e).log
    ensures LogBlocks(s.log) <= Next(s, e).blocks
  {
    WhenAdmitted(s, e);
    AppendKeeps(s, e);
    var s' := Next(s, e);
    LogExtends(s, s');
  }

  lemma {:induction false} LogExtends(s: System, s': System)
    requires Inv(s) && Inv(s') && (s'.log == s.log || exists t :: s'.log == s.log + [t])
    ensures LogBlocks(s.log) <= s'.blocks
  {
    if s'.log != s.log {
      assert s'.log[..|s'.log| - 1] == s.log;
      LastAt(s'.blocks, s'.log);
    }
  }

  /** An append that completes is exactly what the scanner then finds: the index cached
      from it is the index a scan would build. */
  lemma {:induction false} CompletedAppendScans(s: System, e: Append)
    requires Inv(s) && Legal(s, e) && Scan(s.blocks).Ok? && !Refused(LogEntries(s.log), e.t, e.prefix)
    requires e.fault.NoFault? && InBudget(e.t)
    ensures Next(s, e).log == s.log + [e.t]
    ensures var end := |LogBlocks(s.log)|;
            WellFormed(e.t) && Scan(Next(s, e).blocks)
            == Ok(LogEntries(s.log) + EntriesOf(e.t, end), end + |TxBlocks(e.t)|)
  {
    hide Legal, Refused, LogBlocks, LogEntries, Next, Scan, Inv, Written, WellFormed, EntriesOf, TxBlocks,
        SignsFirstHeader;
    WhenAdmitted(s, e);
    AdmittedIsSound(s, e);
    AppendKeeps(s, e);
    AdmittedGrows(s, e.t);
    CompletionStops(s, e.t);
    ScanIsExact(Next(s, e));
  }

  lemma {:induction false} AdmittedGrows(s: System, t: Transaction)
    requires Inv(s) && Admits(t, LogEntries(s.log))
    ensures LogOk(s.log + [t])
    ensures |LogBlocks(s.log + [t])| == |LogBlocks(s.log)| + |TxBlocks(t)|
    ensures LogEntries(s.log + [t]) == LogEntries(s.log) + EntriesOf(t, |LogBlocks(s.log)|)
  {
    LogGrows(s.log, t);
  }

  lemma {:induction false} CompletionStops(s: System, t: Transaction)
    requires |LogBlocks(s.log)| <= |s.blocks|
    ensures var end := |LogBlocks(s.log)|;
            && Written(s, end, t, NoFault).log == s.log + [t]
            && Stopped(Written(s, end, t, NoFault).blocks, end + |TxBlocks(t)|)
  {
    hide LogBlocks, TxBlocks, Zeroed;
    assert Script(t)[|TxBlocks(t)|] == Zero;
  }

  /** An exception after any number of blocks leaves the old index, once one zero block is back. */
  lemma {:induction false} RolledBackAppendScans(s: System, e: Append)
    requires Inv(s) && Legal(s, e) && Scan(s.blocks).Ok? && !Refused(LogEntries(s.log), e.t, e.prefix)
    requires var fault := Budgeted(e.t, e.fault); fault.Raise? && fault.z > 0
    ensures Next(s, e).log == s.log
    ensures Scan(Next(s, e).blocks) == Ok(LogEntries(s.log), |LogBlocks(s.log)|)
  {
    WhenAdmitted(s, e);
    AppendKeeps(s, e);
    RollbackStops(s, e.t, Budgeted(e.t, e.fault));
    hide Legal, Refused, LogBlocks, LogEntries, Next, Scan, Inv;
    ScanIsExact(Next(s, e));
  }

  lemma {:induction false} RollbackStops(s: System, t: Transaction, fault: Fault)
    requires |LogBlocks(s.log)| <= |s.blocks| && fault.Raise? && fault.z > 0
    ensures Written(s, |LogBlocks(s.log)|, t, fault).log == s.log
    ensures Stopped(Written(s, |LogBlocks(s.log)|, t, fault).blocks, |LogBlocks(s.log)|)
  {
    hide LogBlocks, TxBlocks, Zeroed, First;
    var end := |LogBlocks(s.log)|;
    assert First(Footer, fault.z) != [] && First(Footer, fault.z)[0] == Zero by {
      StartsWithZero(fault.z);
    }
  }

  lemma {:induction false} StartsWithZero(z: nat)
    requires z > 0
    ensures First(Footer, z) != [] && First(Footer, z)[0] == Zero
  {
  }

  /** While an append is under way, the prefix lent to readers keeps every committed payload. */
  lemma {:induction false} LentPrefixReadable(s: System, bs: seq<Block>, name: string)
    requires Inv(s) && name in LogEntries(s.log)
    ensures |LogBlocks(s.log)| <= |s.blocks|
    ensures Readable(Overlay(s.blocks, |LogBlocks(s.log)|, bs), LogEntries(s.log)[name])
  {
    hide Leftovers, Distinct, Doomed, LogBlocks;
    KeepsPrefix(s.blocks, |LogBlocks(s.log)|, bs, LogBlocks(s.log));
    LogReadable(Overlay(s.blocks, |LogBlocks(s.log)|, bs), s.log, name);
  }

  /** No committed name is a directory of another one. */
  ghost predicate Flat(entries: map<string, Entry>) {
    forall a <- entries, b <- entries :: !Under(a, b)
  }

  lemma {:induction false} LogStaysOrGrows(s: System, e: Append)
    requires Inv(s) && Legal(s, e)
    ensures LogOk(s.log) && forall t <- s.log :: WellFormed(t)
    ensures Next(s, e).log == s.log
         || (&& WellFormed(e.t) && !Refused(LogEntries(s.log), e.t, e.prefix) && Admits(e.t, LogEntries(s.log))
             && Next(s, e).log == s.log + [e.t])
  {
    hide Legal, LogBlocks, LogEntries, WellFormed, Admits, Next, Refused, Scan, AppendBlocks, Leftovers, Doomed;
    hide Distinct;
    WhenAdmitted(s, e);
    if Next(s, e).log != s.log {
      AdmittedIsSound(s, e);
    }
  }

  lemma {:induction false} StaysFlat(s: System, e: Append)
    requires Inv(s) && Legal(s, e) && LogOk(s.log) && Flat(LogEntries(s.log))
    ensures LogOk(Next(s, e).log) && Flat(LogEntries(Next(s, e).log))
  {
    hide *;
    LogStaysOrGrows(s, e);
    if Next(s, e).log != s.log {
      var t := e.t;
      LogGrows(s.log, t);
      PublishedNames(t, |LogBlocks(s.log)|);
      FlatTogether(LogEntries(s.log), e.t, e.prefix, EntriesOf(t, |LogBlocks(s.log)|));
    }
  }

  lemma {:induction false} FlatTogether(entries: map<string, Entry>, t: Transaction, prefix: Option<string>,
        added: map<string, Entry>)
    requires Flat(entries) && !Refused(entries, t, prefix)
    requires added.Keys == set m <- t.members :: m.name
    ensures Flat(entries + added)
  {
    var names := set m <- t.members :: m.name;
    forall a, b | a in entries + added && b in entries + added
      ensures !Under(a, b)
    {
      assert a in entries.Keys + names && b in entries.Keys + names;
    }
  }

  lemma {:induction false} PublishedNames(t: Transaction, start: nat)
    requires WellFormed(t)
    ensures EntriesOf(t, start).Keys == set m <- t.members :: m.name
  {
    var n := |t.members|;
    StagedNames(t, start, n);
    NamesPublished(Rows(t.members), Staged(t, start, n), t.id);
    var names := set m <- t.members :: m.name;
    forall name | name in names
      ensures name in EntriesOf(t, start)
    {
      var k :| 0 <= k < n && t.members[k].name == name;
      assert Rows(t.members)[k].name == name;
    }
    forall name | name in EntriesOf(t, start)
      ensures name in names
    {
      var k :| 0 <= k < n && Rows(t.members)[k].name == name;
      assert t.members[k] in t.members;
    }
  }

  lemma {:induction false} NamesPublished(rows: seq<Row>, pending: map<string, Slot>, txn: nat)
    requires forall row <- rows :: row.name in pending
    ensures forall k | 0 <= k < |rows| :: rows[k].name in Published(rows, pending, txn)
    ensures forall name <- Published(rows, pending, txn) :: exists k | 0 <= k < |rows| :: rows[k].name == name
  {
    if rows != [] {
      NamesPublished(rows[..|rows| - 1], pending, txn);
    }
  }

  /** Over whole runs, the committed names form a directory tree without conflicts. */
  lemma {:induction false} RunStaysFlat(es: seq<Append>)
    requires LegalRun(Empty, es)
    ensures LogOk(Run(Empty, es).log) && Flat(LogEntries(Run(Empty, es).log))
  {
    RunKeeps(es);
    if es != [] {
      RunKeeps(es[..|es| - 1]);
      RunStaysFlat(es[..|es| - 1]);
      hide Flat, Inv, Legal, Next;
      StaysFlat(Run(Empty, es[..|es| - 1]), es[|es| - 1]);
    }
  }
}
