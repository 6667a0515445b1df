/** Which appends are refused and which are published, told by names and by what has been committed. */
module ArchiveAdmission {
  import opened ArchiveFormat
  import opened Options
  import opened ArchiveLog
  import opened ArchiveRuns
  import opened ArchiveSafety

  /** The path of `name` leads through the directory `dir`. */
  predicate Through(dir: string, name: string) {
    |dir| < |name| && name[..|dir|] == dir && name[|dir|] == '/'
  }

  function MemberNames(t: Transaction): set<string> {
    set m <- t.members :: m.name
  }

  /** Every name that a committed transaction has written. */
  function CommittedNames(log: seq<Transaction>): set<string> {
    set t, m | t in log && m in t.members :: m.name
  }

  /** What a caller can check before an append, by the names alone. */
  predicate Admissible(names: set<string>, t: Transaction, prefix: Option<string>) {
    && t.members != []
    && (forall i, j | 0 <= i < j < |t.members| :: t.members[i].name != t.members[j].name)
    && (prefix.Some? ==> forall name <- names :: name != prefix.value && !Through(prefix.value, name))
    && (t.replace || MemberNames(t) !! names)
    && (forall a <- MemberNames(t), b <- names + MemberNames(t) :: !Through(a, b) && !Through(b, a))
  }

  lemma {:induction false} UnderIsThrough(dir: string, name: string)
    ensures Under(dir, name) <==> Through(dir, name)
  {
    if |dir| < |name| {
      assert name[..|dir| + 1] == name[..|dir|] + [name[|dir|]];
    }
    if Under(dir, name) {
      assert name[..|dir + "/"|] == dir + "/";
    }
  }

  lemma {:induction false} LogNames(log: seq<Transaction>)
    requires forall t <- log :: WellFormed(t)
    ensures LogEntries(log).Keys == CommittedNames(log)
  {
    if log != [] {
      var init, t := log[..|log| - 1], log[|log| - 1];
      LogNames(init);
      PublishedNames(t, |LogBlocks(init)|);
      assert log == init + [t];
      NamesGrow(init, t);
    }
  }

  lemma {:induction false} NamesGrow(log: seq<Transaction>, t: Transaction)
    ensures CommittedNames(log + [t]) == CommittedNames(log) + MemberNames(t)
  {
    forall name
      ensures name in CommittedNames(log + [t]) <==> name in CommittedNames(log) || name in MemberNames(t)
    {
      forall u | u in log || u == t
        ensures u in log + [t]
      {
        assert t == (log + [t])[|log|];
      }
    }
  }

  lemma {:induction false} RefusedIsInadmissible(entries: map<string, Entry>, t: Transaction, prefix: Option<string>)
    ensures Refused(entries, t, prefix) <==> !Admissible(entries.Keys, t, prefix)
  {
    hide Under, Through;
    forall a: string, b: string
      ensures Under(a, b) <==> Through(a, b)
    {
      UnderIsThrough(a, b);
    }
  }

  lemma {:induction false} LogState(s: System)
    requires Inv(s)
    ensures LogOk(s.log) && (forall t <- s.log :: WellFormed(t)) && |LogBlocks(s.log)| <= |s.blocks|
    ensures LogEntries(s.log).Keys == CommittedNames(s.log)
  {
    LogNames(s.log);
  }

  /** An append that is not admissible by the committed names changes nothing, however it would have ended. */
  lemma {:induction false} InadmissibleIsRefused(s: System, e: Append)
    requires Inv(s) && !Admissible(CommittedNames(s.log), e.t, e.prefix)
    ensures Next(s, e) == s
  {
    LogState(s);
    RefusedIsInadmissible(LogEntries(s.log), e.t, e.prefix);
    WhenAdmitted(s, e);
  }

  /** A fresh prefix is refused when a committed name is that prefix or lies under it. */
  lemma {:induction false} UsedPrefixIsRefused(s: System, e: Append, u: Transaction, m: Member)
    requires Inv(s) && u in s.log && m in u.members && e.prefix.Some?
    requires m.name == e.prefix.value || e.prefix.value + "/" <= m.name
    ensures Next(s, e) == s
  {
    UnderIsThrough(e.prefix.value, m.name);
    assert m.name in CommittedNames(s.log);
    hide Inv, CommittedNames, Next, Through;
    InadmissibleIsRefused(s, e);
  }

  /** A committed name is refused unless the append replaces. */
  lemma {:induction false} UsedNameIsRefused(s: System, e: Append, u: Transaction, m: Member, n: Member)
    requires Inv(s) && u in s.log && m in u.members && n in e.t.members && n.name == m.name && !e.t.replace
    ensures Next(s, e) == s
  {
    assert m.name in CommittedNames(s.log) && m.name in MemberNames(e.t);
    hide Inv, CommittedNames, Next;
    InadmissibleIsRefused(s, e);
  }

  /** A name is refused that would make a committed file a directory, or be one of its directories. */
  lemma {:induction false} FileAsDirectoryIsRefused(s: System, e: Append, u: Transaction, m: Member, n: Member)
    requires Inv(s) && u in s.log && m in u.members && n in e.t.members
    requires m.name + "/" <= n.name || n.name + "/" <= m.name
    ensures Next(s, e) == s
  {
    UnderIsThrough(m.name, n.name);
    UnderIsThrough(n.name, m.name);
    assert m.name in CommittedNames(s.log) && n.name in MemberNames(e.t);
    hide Inv, CommittedNames, Next, Through;
    InadmissibleIsRefused(s, e);
  }

  /** The whole rule: where the archive can be scanned, an append without a fault extends the log by its
      transaction if and only if it is admissible by the committed names and its record is within the budget;
      otherwise the log stays as it is. */
  lemma {:induction false} AppendPublishes(s: System, e: Append)
    requires Inv(s) && Legal(s, e) && Scan(s.blocks).Ok? && e.fault.NoFault?
    ensures Next(s, e).log
         == if Admissible(CommittedNames(s.log), e.t, e.prefix) && InBudget(e.t) then s.log + [e.t] else s.log
  {
    if Admissible(CommittedNames(s.log), e.t, e.prefix) {
      LogState(s);
      RefusedIsInadmissible(LogEntries(s.log), e.t, e.prefix);
      hide Admissible, Inv, Next, Scan, Refused, Legal, CommittedNames, LogEntries;
      if InBudget(e.t) {
        CompletedAppendScans(s, e);
      } else {
        RolledBackAppendScans(s, e);
      }
    } else {
      InadmissibleIsRefused(s, e);
    }
  }

  // What a name reads back

  /** The entry holds exactly the member's bytes, as its transaction wrote them. */
  ghost predicate Fetches(blocks: seq<Block>, e: Entry, t: Transaction, m: Member) {
    && e.txn == t.id && e.bytes == m.size && e.sha == Digest(m.size, m.content)
    && At(blocks, e.offset, Payload(m.content))
  }

  /** The `i`-th member of the `k`-th transaction, when no later transaction writes its name. */
  predicate LastWritten(log: seq<Transaction>, k: nat, i: nat) {
    && k < |log| && i < |log[k].members|
    && forall j | k < j < |log| :: log[k].members[i].name !in MemberNames(log[j])
  }

  lemma {:induction false} EntryOfMember(blocks: seq<Block>, t: Transaction, start: nat, i: nat)
    requires WellFormed(t) && At(blocks, start, TxBlocks(t)) && i < |t.members|
    ensures t.members[i].name in EntriesOf(t, start)
    ensures Fetches(blocks, EntriesOf(t, start)[t.members[i].name], t, t.members[i])
  {
    var n, name := |t.members|, t.members[i].name;
    PublishedNames(t, start);
    assert name in MemberNames(t);
    EntryReadable(blocks, t, start, name);
    StagedNames(t, start, n);
    PublishedRow(Rows(t.members), Staged(t, start, n), t.id, name);
    hide At, TxBlocks, Staged, Published;
    var k :| 0 <= k < n && Rows(t.members)[k].name == name
             && EntriesOf(t, start)[name] == Entry(Staged(t, start, n)[name].offset, Staged(t, start, n)[name].bytes,
                                                   Rows(t.members)[k].sha, t.id);
    assert k == i;
  }

  lemma {:induction false} LogFetches(blocks: seq<Block>, log: seq<Transaction>, k: nat, i: nat)
    requires LogOk(log) && (forall t <- log :: WellFormed(t)) && LogBlocks(log) <= blocks && LastWritten(log, k, i)
    ensures log[k].members[i].name in LogEntries(log)
    ensures Fetches(blocks, LogEntries(log)[log[k].members[i].name], log[k], log[k].members[i])
  {
    var init, t := log[..|log| - 1], log[|log| - 1];
    var start := |LogBlocks(init)|;
    LastAt(blocks, log);
    LastOk(log);
    PublishedNames(t, start);
    hide *;
    if k == |log| - 1 {
      EntryOfMember(blocks, t, start, i);
      LastEntry(log, log[k].members[i].name);
    } else {
      EarlierLast(log, k, i);
      LogFetches(blocks, init, k, i);
      LastEntry(log, log[k].members[i].name);
    }
  }

  lemma {:induction false} LastEntry(log: seq<Transaction>, name: string)
    requires log != [] && forall t <- log :: WellFormed(t)
    ensures var init, t := log[..|log| - 1], log[|log| - 1];
            var added := EntriesOf(t, |LogBlocks(init)|);
      && (name in LogEntries(log) <==> name in LogEntries(init) || name in added)
      && (name in added ==> LogEntries(log)[name] == added[name])
      && (name in LogEntries(init) && name !in added ==> LogEntries(log)[name] == LogEntries(init)[name])
  {
    hide EntriesOf, LogBlocks;
  }

  lemma {:induction false} EarlierLast(log: seq<Transaction>, k: nat, i: nat)
    requires LastWritten(log, k, i) && k < |log| - 1
    ensures LastWritten(log[..|log| - 1], k, i)
    ensures log[..|log| - 1][k] == log[k] && log[k].members[i].name !in MemberNames(log[|log| - 1])
  {
    hide MemberNames;
  }

  /** Whenever the archive can be scanned, the index has every committed name, and the name reads back the
      bytes that the last committed transaction with that name handed over. */
  lemma {:induction false} IndexIsLastWritten(s: System)
    requires Inv(s) && Scan(s.blocks).Ok?
    ensures Scan(s.blocks).entries.Keys == CommittedNames(s.log)
    ensures forall k: nat, i: nat | LastWritten(s.log, k, i) ::
              && s.log[k].members[i].name in Scan(s.blocks).entries
              && Fetches(s.blocks, Scan(s.blocks).entries[s.log[k].members[i].name], s.log[k], s.log[k].members[i])
  {
    LogState(s);
    ScanIsExact(s);
    KeepsLogPrefix(s);
    hide *;
    forall k: nat, i: nat | LastWritten(s.log, k, i)
      ensures k < |s.log| && i < |s.log[k].members|
      ensures s.log[k].members[i].name in Scan(s.blocks).entries
      ensures Fetches(s.blocks, Scan(s.blocks).entries[s.log[k].members[i].name], s.log[k], s.log[k].members[i])
    {
      InLog(s.log, k, i);
      LogFetches(s.blocks, s.log, k, i);
    }
  }

  lemma {:induction false} InLog(log: seq<Transaction>, k: nat, i: nat)
    requires LastWritten(log, k, i)
    ensures k < |log| && i < |log[k].members|
  {
  }

  lemma {:induction false} KeepsLogPrefix(s: System)
    requires Inv(s)
    ensures LogBlocks(s.log) <= s.blocks
  {
  }

  // Replacing

  /** The members of the append can all be fetched. */
  ghost predicate Stored(blocks: seq<Block>, t: Transaction) {
    && Scan(blocks).Ok?
    && forall m <- t.members :: m.name in Scan(blocks).entries && Fetches(blocks, Scan(blocks).entries[m.name], t, m)
  }

  /** An append that completes stores its members. */
  lemma {:induction false} CompletedIsStored(s: System, e: Append)
    requires Inv(s) && Legal(s, e) && Scan(s.blocks).Ok? && e.fault.NoFault?
    requires Admissible(CommittedNames(s.log), e.t, e.prefix) && InBudget(e.t)
    ensures Stored(Next(s, e).blocks, e.t)
  {
    LogState(s);
    RefusedIsInadmissible(LogEntries(s.log), e.t, e.prefix);
    hide *;
    var n := Next(s, e);
    CompletedAppendScans(s, e);
    AppendKeeps(s, e);
    IndexIsLastWritten(n);
    StoredLast(n, e.t);
  }

  lemma {:induction false} StoredLast(s: System, t: Transaction)
    requires Scan(s.blocks).Ok? && s.log != [] && s.log[|s.log| - 1] == t
    requires forall k: nat, i: nat | LastWritten(s.log, k, i) ::
              && s.log[k].members[i].name in Scan(s.blocks).entries
              && Fetches(s.blocks, Scan(s.blocks).entries[s.log[k].members[i].name], s.log[k], s.log[k].members[i])
    ensures Stored(s.blocks, t)
  {
    hide Scan, Fetches, MemberNames;
    forall m | m in t.members
      ensures m.name in Scan(s.blocks).entries && Fetches(s.blocks, Scan(s.blocks).entries[m.name], t, m)
    {
      var i: nat :| i < |t.members| && t.members[i] == m;
      assert LastWritten(s.log, |s.log| - 1, i);
    }
  }

  /** Committed names can be replaced: after any run an append that replaces names committed before is
      published, no name is lost, and the replaced names read back the new bytes. */
  lemma {:induction false} ReplacementSucceeds(es: seq<Append>, t: Transaction)
    requires LegalRun(Empty, es) && Scan(Run(Empty, es).blocks).Ok? && Legal(Run(Empty, es), Append(t, None, NoFault))
    requires t.members != [] && t.replace && InBudget(t)
    requires forall i, j | 0 <= i < j < |t.members| :: t.members[i].name != t.members[j].name
    requires MemberNames(t) <= CommittedNames(Run(Empty, es).log)
    ensures var s := Run(Empty, es);
            var n := Next(s, Append(t, None, NoFault));
      && n.log == s.log + [t] && Stored(n.blocks, t)
      && Scan(n.blocks).entries.Keys == CommittedNames(s.log)
  {
    hide *;
    var s, e := Run(Empty, es), Append(t, None, NoFault);
    RunKeeps(es);
    RunStaysFlat(es);
    LogState(s);
    FlatIsAdmissible(LogEntries(s.log), t);
    AppendPublishes(s, e);
    CompletedIsStored(s, e);
    AppendKeeps(s, e);
    StoredScans(Next(s, e).blocks, t);
    IndexIsLastWritten(Next(s, e));
    NamesGrow(s.log, t);
    assert CommittedNames(s.log) + MemberNames(t) == CommittedNames(s.log);
  }

  lemma {:induction false} StoredScans(blocks: seq<Block>, t: Transaction)
    requires Stored(blocks, t)
    ensures Scan(blocks).Ok?
  {
  }

  lemma {:induction false} FlatIsAdmissible(entries: map<string, Entry>, t: Transaction)
    requires Flat(entries) && t.members != [] && t.replace && MemberNames(t) <= entries.Keys
    requires forall i, j | 0 <= i < j < |t.members| :: t.members[i].name != t.members[j].name
    ensures Admissible(entries.Keys, t, None)
  {
    forall a: string, b: string
      ensures Under(a, b) <==> Through(a, b)
    {
      UnderIsThrough(a, b);
    }
    hide Under, Through;
  }

  /** An append that dies before its script has zeroed so many blocks of the footer's place and touched no other,
      whether there was a footer or not. */
  lemma {:induction false} StoppedBefore(blocks: seq<Block>, end: nat, t: Transaction, z: nat)
    requires end <= |blocks|
    ensures var zeroed, after := if z < 2 then z else 2, AppendBlocks(blocks, end, t, Before(z));
      && |after| == (if |blocks| < end + zeroed && !At(blocks, end, Footer) then end + zeroed else |blocks|)
      && forall q | 0 <= q < |after| :: after[q] == if end <= q < end + zeroed then Zero else blocks[q]
  {
    if At(blocks, end, Footer) {
      assert forall q | end <= q < end + 2 :: blocks[q] == blocks[end..end + 2][q - end];
    }
  }

  // What a scan accepts

  function RowNames(rows: seq<Row>): set<string> {
    set row <- rows :: row.name
  }

  predicate Once(rows: seq<Row>) {
    forall i, j | 0 <= i < j < |rows| :: rows[i].name != rows[j].name
  }

  lemma {:induction false} OnceMore(init: seq<Row>, last: Row)
    ensures Once(init + [last]) <==> Once(init) && last.name !in RowNames(init)
    ensures RowNames(init + [last]) == RowNames(init) + {last.name}
  {
    var rows := init + [last];
    if Once(rows) {
      forall i | 0 <= i < |init|
        ensures init[i].name != last.name
      {
        assert rows[i].name != rows[|init|].name;
      }
      forall i, j | 0 <= i < j < |init|
        ensures init[i].name != init[j].name
      {
        assert rows[i] == init[i] && rows[j] == init[j];
      }
    }
    if Once(init) && last.name !in RowNames(init) {
      forall i, j | 0 <= i < j < |rows|
        ensures rows[i].name != rows[j].name
      {
        assert rows[i] == init[i] && init[i] in init;
        if j < |init| {
          assert rows[j] == init[j];
        }
      }
    }
  }

  lemma {:induction false} NamesAreFew(rows: seq<Row>)
    ensures |RowNames(rows)| <= |rows| && (|RowNames(rows)| == |rows| <==> Once(rows))
  {
    if rows == [] {
      assert RowNames(rows) == {};
    } else {
      hide Once, RowNames;
      var init, last := rows[..|rows| - 1], rows[|rows| - 1];
      NamesAreFew(init);
      assert rows == init + [last];
      OnceMore(init, last);
    }
  }

  lemma {:induction false} SameSize(a: set<string>, b: set<string>)
    requires a <= b && |a| == |b|
    ensures a == b
  {
    assert b == a + (b - a);
  }

  /** A commit record is accepted exactly when it carries the identifier of the open transaction, in its place and
      in its text, names each staged member once and nothing else, gives their lengths, and replaces or names
      nothing that is committed. */
  lemma {:induction false} AcceptsItsMembers(record: Record, txn: nat, st: ScanState)
    ensures Accepts(record, txn, st) <==>
      && st.txn == Some(txn) && record.txn == txn
      && RowNames(record.rows) == st.pending.Keys && |record.rows| == |st.pending.Keys|
      && (forall row <- record.rows :: row.name in st.pending ==> row.bytes == st.pending[row.name].bytes)
      && (record.replace || st.pending.Keys !! st.entries.Keys)
  {
    NamesAreFew(record.rows);
    assert |st.pending| == |st.pending.Keys|;
    if Accepts(record, txn, st) {
      SameSize(RowNames(record.rows), st.pending.Keys);
    }
    if RowNames(record.rows) == st.pending.Keys {
      forall row | row in record.rows
        ensures row.name in st.pending
      {
        assert row.name in RowNames(record.rows);
      }
    }
  }
}
