/** The archive as it is kept: one file overwritten in place, and an index cached beside it. */
module ArchiveFiles {
  import opened ArchiveAdmission
  import opened ArchiveFormat
  import opened ArchiveLengths
  import opened Options
  import opened ArchiveLayout
  import opened ArchiveLog
  import opened ArchiveRuns
  import opened ArchiveTail
  import opened ArchiveSafety

  /** An index with the stamp of the file it was built from. */
  datatype Snapshot = Snapshot(stamp: nat, entries: map<string, Entry>, end: nat)

  lemma {:induction false} OverlayTwice(blocks: seq<Block>, pos: nat, a: seq<Block>, b: seq<Block>)
    requires pos <= |blocks|
    ensures Overlay(Overlay(blocks, pos, a), pos + |a|, b) == Overlay(blocks, pos, a + b)
  {
  }

  lemma {:induction false} OverlayNone(blocks: seq<Block>, pos: nat)
    requires pos <= |blocks|
    ensures Overlay(blocks, pos, []) == blocks
  {
  }

  /** Writing one block more. */
  lemma {:induction false} OverlayOne(blocks: seq<Block>, pos: nat, bs: seq<Block>, i: nat)
    requires pos <= |blocks| && i < |bs|
    ensures var so := Overlay(blocks, pos, bs[..i]);
            && pos + i <= |so|
            && so[..pos + i] + [bs[i]] + (if pos + i < |so| then so[pos + i + 1..] else [])
                == Overlay(blocks, pos, bs[..i + 1])
  {
  }

  lemma {:induction false} FirstTwice(whole: seq<Block>, at: nat, bs: seq<Block>, limit: nat)
    requires at <= limit && At(whole, at, bs)
    ensures First(whole, at) + First(bs, limit - at) == First(whole, if limit < at + |bs| then limit else at + |bs|)
  {
    assert whole[at..at + |bs|] == bs;
  }

  /** Writing a group at its place, after all before it, writes the whole so far. */
  lemma {:induction false} PieceWritten(blocks: seq<Block>, end: nat, whole: seq<Block>, g: nat, bs: seq<Block>,
        limit: nat)
    requires end <= |blocks| && g <= limit && At(whole, g, bs)
    ensures |First(whole, g)| == g
    ensures Overlay(Overlay(blocks, end, First(whole, g)), end + g, First(bs, limit - g))
         == Overlay(blocks, end, First(whole, if limit < g + |bs| then limit else g + |bs|))
  {
    hide Overlay;
    FirstTwice(whole, g, bs, limit);
    OverlayTwice(blocks, end, First(whole, g), First(bs, limit - g));
  }

  lemma {:induction false} GroupWritten(blocks: seq<Block>, end: nat, t: Transaction, i: nat, limit: nat)
    requires end <= |blocks| && i < |t.members| && GroupOffset(t.members, i) <= limit
    ensures var g, next := GroupOffset(t.members, i), GroupOffset(t.members, i + 1);
            && |First(Script(t), g)| == g && next <= |TxBlocks(t)|
            && Overlay(Overlay(blocks, end, First(Script(t), g)), end + g,
                First(MemberBlocks(t.id, t.members[i]), limit - g))
            == Overlay(blocks, end, First(Script(t), if limit < next then limit else next))
  {
    GroupPlace(t, i);
    hide TxBlocks, MemberBlocks, GroupOffset, Script, Overlay, First;
    PieceWritten(blocks, end, Script(t), GroupOffset(t.members, i), MemberBlocks(t.id, t.members[i]), limit);
  }

  lemma {:induction false} GroupPlace(t: Transaction, i: nat)
    requires i < |t.members|
    ensures At(Script(t), GroupOffset(t.members, i), MemberBlocks(t.id, t.members[i]))
    ensures GroupOffset(t.members, i + 1)
            == GroupOffset(t.members, i) + |MemberBlocks(t.id, t.members[i])| <= |TxBlocks(t)|
  {
    var g := GroupOffset(t.members, i);
    NextGroup(t.members, i);
    DataLength(t.id, t.members);
    DataSlice(t.id, t.members, i);
    AtSplit(Script(t), 0, DataBlocks(t.id, t.members), CommitBlocks(t) + Footer);
    assert Script(t) == DataBlocks(t.id, t.members) + (CommitBlocks(t) + Footer);
    AtSlice(Script(t), 0, DataBlocks(t.id, t.members), g, g + MemberLength(t.members[i]));
  }

  /** Writing two parts one after the other, as far as the limit goes, writes the whole so far. */
  lemma {:induction false} PartsWritten(blocks: seq<Block>, end: nat, a: seq<Block>, b: seq<Block>, limit: nat)
    requires end <= |blocks| && |a| <= limit
    ensures First(a + b, |a|) == a
    ensures Overlay(Overlay(blocks, end, a), end + |a|, First(b, limit - |a|))
            == Overlay(blocks, end, First(a + b, limit))
  {
    hide Overlay;
    OverlayTwice(blocks, end, a, First(b, limit - |a|));
    assert a + First(b, limit - |a|) == First(a + b, limit);
  }

  lemma {:induction false} RestWritten(blocks: seq<Block>, end: nat, t: Transaction, limit: nat)
    requires end <= |blocks| && GroupOffset(t.members, |t.members|) <= limit
    ensures var g := GroupOffset(t.members, |t.members|);
            && |First(Script(t), g)| == g
            && Overlay(Overlay(blocks, end, First(Script(t), g)), end + g, First(CommitBlocks(t) + Footer, limit - g))
            == Overlay(blocks, end, First(Script(t), limit))
  {
    DataLength(t.id, t.members);
    assert Script(t) == DataBlocks(t.id, t.members) + (CommitBlocks(t) + Footer);
    hide DataBlocks, GroupOffset, Overlay, CommitBlocks, First, Script;
    PartsWritten(blocks, end, DataBlocks(t.id, t.members), CommitBlocks(t) + Footer, limit);
  }

  /** The entries that the first `i` members publish. */
  function PublishedUpTo(t: Transaction, end: nat, i: nat): map<string, Entry>
    requires WellFormed(t) && i <= |t.members|
  {
    StagedNames(t, end, |t.members|);
    Published(Rows(t.members)[..i], Staged(t, end, |t.members|), t.id)
  }

  lemma {:induction false} StartOfWriting(blocks: seq<Block>, end: nat, t: Transaction)
    requires end <= |blocks| && WellFormed(t)
    ensures blocks == Overlay(blocks, end, First(Script(t), 0))
    ensures GroupOffset(t.members, 0) == 0 && PublishedUpTo(t, end, 0) == map[]
  {
  }

  lemma {:induction false} PublishOne(t: Transaction, end: nat, i: nat)
    requires WellFormed(t) && i < |t.members|
    ensures var m := t.members[i];
            PublishedUpTo(t, end, i + 1) == PublishedUpTo(t, end, i)
              [m.name := Entry(end + MainOffset(t.members, i) + 1, m.size, Digest(m.size, m.content), t.id)]
  {
    hide Staged, MainOffset, WellFormed, Published, Rows, GroupOffset, HeaderLength;
    SlotOf(t, end, i);
    RowPublished(Rows(t.members), Staged(t, end, |t.members|), t.id, i);
  }

  lemma {:induction false} SlotOf(t: Transaction, start: nat, i: nat)
    requires WellFormed(t) && i < |t.members|
    ensures forall row <- Rows(t.members) :: row.name in Staged(t, start, |t.members|)
    ensures Staged(t, start, |t.members|)[t.members[i].name]
         == Slot(start + MainOffset(t.members, i) + 1, t.members[i].size)
  {
    StagedNames(t, start, |t.members|);
    hide Staged, MainOffset, WellFormed;
  }

  lemma {:induction false} RowPublished(rows: seq<Row>, pending: map<string, Slot>, txn: nat, i: nat)
    requires i < |rows| && forall row <- rows :: row.name in pending
    ensures Published(rows[..i + 1], pending, txn)
         == Published(rows[..i], pending, txn)
              [rows[i].name := Entry(pending[rows[i].name].offset, pending[rows[i].name].bytes, rows[i].sha, txn)]
  {
    assert rows[..i + 1][..i] == rows[..i];
  }

  lemma {:induction false} EndOfData(t: Transaction, end: nat, i: nat)
    requires WellFormed(t) && i <= |t.members|
    ensures GroupOffset(t.members, i) < |TxBlocks(t)|
    ensures i == |t.members| ==> PublishedUpTo(t, end, i) == EntriesOf(t, end)
  {
    TxLength(t);
    if i < |t.members| {
      OffsetsGrow(t.members, i, |t.members|);
    }
    assert i == |t.members| ==> Rows(t.members)[..i] == Rows(t.members);
  }

  class ArchiveFile {
    var blocks: seq<Block>
    var stamp: nat
    var cached: Option<Snapshot>

    /** A cached index whose stamp is current is the index a scan would build. */
    ghost predicate Valid()
      reads this
    {
      cached.Some? ==>
        && cached.value.stamp <= stamp
        && (cached.value.stamp == stamp ==> Scan(blocks) == Ok(cached.value.entries, cached.value.end))
    }

    constructor ()
      ensures blocks == [] && Valid()
    {
      blocks, stamp, cached := [], 0, None;
    }

    /** Walk the file header by header and fold the committed transactions. */
    method ScanFile() returns (r: ScanResult)
      ensures r == Scan(blocks)
    {
      var entries: map<string, Entry>, pending: map<string, Slot> := map[], map[];
      var transaction: Option<nat> := None;
      var committedEnd: nat, pos: nat := 0, 0;
      while true
        invariant pos <= |blocks|
        invariant Scan(blocks) == ScanFrom(blocks, pos, ScanState(entries, pending, transaction, committedEnd))
        decreases |blocks| - pos
      {
        var probe := HeaderAvailable(blocks, pos);
        if probe.Absent? {
          return Ok(entries, committedEnd);
        } else if probe.Corrupt? {
          return ArchiveError;
        }
        ItemIsAhead(blocks, pos);
        var found := NextItem(blocks, pos);
        if found.None? {
          return ArchiveError;
        }
        var item := found.value;
        var past := item.at + Units(item.bytes);
        if past > |blocks| {
          return Ok(entries, committedEnd);
        }
        ghost var st := ScanState(entries, pending, transaction, committedEnd);
        match item.kind {
          case Data(txn, name) =>
            if (transaction.Some? && transaction.value != txn) || name in pending {
              return ArchiveError;
            }
            transaction, pending := Some(txn), pending[name := Slot(item.at, item.bytes)];
          case Commit(txn) =>
            if item.bytes > MAX_METADATA {
              return ArchiveError;
            }
            var record := ParseRecord(blocks, item);
            if record.None? || !Accepts(record.value, txn, ScanState(entries, pending, transaction, committedEnd)) {
              return ArchiveError;
            }
            entries := entries + Published(record.value.rows, pending, txn);
            pending, transaction, committedEnd := map[], None, past;
        }
        Advance(blocks, pos, st, past, ScanState(entries, pending, transaction, committedEnd));
        pos := past;
      }
    }

    /** The index, from the cache when the file has not changed since. */
    method Index() returns (r: ScanResult)
      requires Valid()
      modifies `cached
      ensures Valid() && r == Scan(blocks)
      ensures cached == if r.Ok? then Some(Snapshot(stamp, r.entries, r.end)) else old(cached)
    {
      if cached.Some? && cached.value.stamp == stamp {
        return Ok(cached.value.entries, cached.value.end);
      }
      r := ScanFile();
      if r.Ok? {
        cached := Some(Snapshot(stamp, r.entries, r.end));
      }
    }

    /** Write at most `budget` of the blocks, one after the other. */
    method WriteAt(pos: nat, bs: seq<Block>, budget: nat)
      requires pos <= |blocks|
      modifies `blocks, `stamp
      ensures blocks == Overlay(old(blocks), pos, First(bs, budget))
      ensures stamp >= old(stamp) && (stamp == old(stamp) ==> blocks == old(blocks))
    {
      hide Overlay;
      OverlayNone(blocks, pos);
      assert bs[..0] == [];
      var i := 0;
      while i < |bs| && i < budget
        invariant i <= |bs| && i <= budget
        invariant blocks == Overlay(old(blocks), pos, bs[..i])
        invariant stamp == old(stamp) + i
      {
        OverlayOne(old(blocks), pos, bs, i);
        blocks := blocks[..pos + i] + [bs[i]] + (if pos + i < |blocks| then blocks[pos + i + 1..] else []);
        stamp := stamp + 1;
        i := i + 1;
      }
    }

    /** Write the members, the commit record and the footer, up to `limit` blocks in all. */
    method WriteTransaction(end: nat, t: Transaction, limit: nat) returns (added: map<string, Entry>)
      requires end <= |blocks| && WellFormed(t)
      modifies `blocks, `stamp
      ensures blocks == Overlay(old(blocks), end, First(Script(t), limit))
      ensures stamp >= old(stamp) && (stamp == old(stamp) ==> blocks == old(blocks))
      ensures limit >= |TxBlocks(t)| ==> added == EntriesOf(t, end)
    {
      hide TxBlocks, First, Script, Overlay, MemberBlocks, GroupOffset, WellFormed, Published, Staged, EntriesOf;
      var ms := t.members;
      var i, written := 0, 0;
      added := map[];
      StartOfWriting(blocks, end, t);
      while i < |ms| && written < limit
        invariant i <= |ms|
        invariant written == if limit < GroupOffset(ms, i) then limit else GroupOffset(ms, i)
        invariant blocks == Overlay(old(blocks), end, First(Script(t), written))
        invariant stamp >= old(stamp) && (stamp == old(stamp) ==> blocks == old(blocks))
        invariant added == PublishedUpTo(t, end, i)
      {
        GroupWritten(old(blocks), end, t, i, limit);
        WriteAt(end + written, MemberBlocks(t.id, ms[i]), limit - written);
        PublishOne(t, end, i);
        added := added[ms[i].name := Entry(end + MainOffset(ms, i) + 1, ms[i].size, Digest(ms[i].size, ms[i].content),
            t.id)];
        i := i + 1;
        written := if limit < GroupOffset(ms, i) then limit else GroupOffset(ms, i);
      }
      EndOfData(t, end, i);
      if written < limit {
        RestWritten(old(blocks), end, t, limit);
        WriteAt(end + written, CommitBlocks(t) + Footer, limit - written);
      }
    }

    /** Zero the footer, write the transaction over it, and on an exception zero it again. */
    method Perform(end: nat, t: Transaction, fault: Fault) returns (added: map<string, Entry>)
      requires end <= |blocks| && WellFormed(t)
      modifies `blocks, `stamp
      ensures blocks == AppendBlocks(old(blocks), end, t, fault)
      ensures stamp >= old(stamp) && (stamp == old(stamp) ==> blocks == old(blocks))
      ensures fault.NoFault? ==> added == EntriesOf(t, end)
    {
      hide TxBlocks, Overlay, WellFormed, EntriesOf;
      added := map[];
      assert First(Footer, 2) == Footer && First(Script(t), |Script(t)|) == Script(t);
      if !At(blocks, end, Footer) {
        WriteAt(end, Footer, if fault.Before? then fault.z else 2);
      }
      if !fault.Before? {
        added := WriteTransaction(end, t, if fault.NoFault? then |Script(t)| else fault.k);
        if fault.Raise? {
          WriteAt(end, Footer, fault.z);
        }
      }
    }

    /** Publish one transaction, or fail the way `fault` says; `s` is the history so far. It is published
        exactly when the archive can be scanned, its names are admissible, its record is within the budget
        and nothing fails; what is not admissible changes nothing. */
    method AppendMembers(t: Transaction, prefix: Option<string>, fault: Fault, ghost s: System)
          returns (published: bool)
      requires Valid() && Inv(s) && s.blocks == blocks && Legal(s, Append(t, prefix, fault))
      modifies this
      ensures Valid() && Inv(Next(s, Append(t, prefix, fault)))
      ensures blocks == Next(s, Append(t, prefix, fault)).blocks
      ensures published <==>
        Scan(old(blocks)).Ok? && Admissible(CommittedNames(s.log), t, prefix) && InBudget(t) && fault.NoFault?
      ensures published ==> Next(s, Append(t, prefix, fault)).log == s.log + [t] && Stored(blocks, t)
      ensures published ==> cached.Some? && cached.value.stamp == stamp
      ensures !Admissible(CommittedNames(s.log), t, prefix) ==> blocks == old(blocks)
    {
      hide Scan, Inv, Legal, Refused, LogBlocks, LogEntries, Next, AppendBlocks, WellFormed, SignsFirstHeader,
          TxBlocks, EntriesOf, Admissible, CommittedNames, InBudget, Stored;
      ghost var e := Append(t, prefix, fault);
      published := false;
      AppendKeeps(s, e);
      ScanIsExact(s);
      WhenAdmitted(s, e);
      RefusedStays(s, e);
      RefusedByNames(s, t, prefix);
      BudgetedFault(t, fault);
      var index := Index();
      if index.Ok? && !Refused(index.entries, t, prefix) {
        AdmittedIsSound(s, e);
        var fault' := Budgeted(t, fault);
        var added := Perform(index.end, t, fault');
        if fault'.NoFault? {
          CompletedAppendScans(s, e);
          CompletedIsStored(s, e);
          cached := Some(Snapshot(stamp, index.entries + added, index.end + |TxBlocks(t)|));
          published := true;
        } else if !fault'.Before? {
          cached := None;
        }
      }
    }
  }

  lemma {:induction false} RefusedByNames(s: System, t: Transaction, prefix: Option<string>)
    requires Inv(s)
    ensures LogOk(s.log) && forall t <- s.log :: WellFormed(t)
    ensures Refused(LogEntries(s.log), t, prefix) <==> !Admissible(CommittedNames(s.log), t, prefix)
  {
    hide *;
    LogState(s);
    RefusedIsInadmissible(LogEntries(s.log), t, prefix);
  }

  lemma {:induction false} BudgetedFault(t: Transaction, fault: Fault)
    ensures Budgeted(t, fault).NoFault? <==> fault.NoFault? && InBudget(t)
  {
    hide InBudget;
  }

  lemma {:induction false} RefusedStays(s: System, e: Append)
    ensures Scan(s.blocks).ArchiveError? ==> Next(s, e) == s
    ensures Scan(s.blocks).Ok? && Refused(Scan(s.blocks).entries, e.t, e.prefix) ==> Next(s, e) == s
  {
    hide Scan, Refused;
  }
}
