/** Scanning the committed part of an archive: the scanner recovers exactly the fold of the log. */
module ArchiveLog {
  import opened ArchiveFormat
  import opened ArchiveLengths
  import opened Options
  import opened ArchiveLayout

  /** `bs` lies at `pos` of `blocks`. */
  predicate At(blocks: seq<Block>, pos: nat, bs: seq<Block>) {
    pos + |bs| <= |blocks| && blocks[pos..pos + |bs|] == bs
  }

  lemma {:induction false} AtSplit(blocks: seq<Block>, pos: nat, a: seq<Block>, b: seq<Block>)
    ensures At(blocks, pos, a + b) <==> At(blocks, pos, a) && At(blocks, pos + |a|, b)
  {
    if pos + |a| + |b| <= |blocks| {
      var window := blocks[pos..pos + |a + b|];
      assert window[..|a|] == blocks[pos..pos + |a|] && window[|a|..] == blocks[pos + |a|..pos + |a| + |b|];
      assert window == window[..|a|] + window[|a|..];
      assert (a + b)[..|a|] == a && (a + b)[|a|..] == b;
    }
  }

  lemma {:induction false} AtSlice(blocks: seq<Block>, pos: nat, bs: seq<Block>, lo: nat, hi: nat)
    requires At(blocks, pos, bs) && lo <= hi <= |bs|
    ensures At(blocks, pos + lo, bs[lo..hi])
  {
    assert bs == bs[..lo] + bs[lo..hi] + bs[hi..];
    AtSplit(blocks, pos, bs[..lo] + bs[lo..hi], bs[hi..]);
    AtSplit(blocks, pos, bs[..lo], bs[lo..hi]);
  }

  /** Reading back a member header, extended or not, yields the member's real name and size. */
  lemma {:induction false} ReadHeader(blocks: seq<Block>, pos: nat, txn: nat, m: Member)
    requires !Oversized(m) && At(blocks, pos, HeaderBlocks(txn, m))
    ensures HeaderAvailable(blocks, pos) == Present
    ensures NextItem(blocks, pos) == Some(Item(Data(txn, m.name), m.size, pos + HeaderLength(m)))
  {
    var main := [Head(Data(txn, NameField(m.name)), SizeField(m.size))];
    if Fits(m) {
      assert blocks[pos] == blocks[pos..pos + 1][0];
    } else {
      var parts := Parts(m);
      var ext, pax := [Ext(parts)], PaxBlocks(PathRecord(txn, m.name), SizeRecord(m.size), parts);
      AtSplit(blocks, pos, ext + pax, main);
      AtSplit(blocks, pos, ext, pax);
      assert blocks[pos] == blocks[pos..pos + 1][0];
      assert blocks[pos + 1 + parts] == blocks[pos + 1 + parts..pos + 2 + parts][0];
      assert NextItem(blocks, pos + 1 + parts)
          == Some(Item(Data(txn, NameField(m.name)), SizeField(m.size), pos + 2 + parts));
      assert ParsePax(blocks[pos + 1..pos + 1 + parts]) == Override(PathRecord(txn, m.name), SizeRecord(m.size)) by {
        assert pax[0].Pax?;
      }
    }
  }

  /** The pending slots after the first `i` members of `t`, written from block `start`. */
  function Staged(t: Transaction, start: nat, i: nat): map<string, Slot>
    requires i <= |t.members|
  {
    if i == 0 then map[]
    else Staged(t, start, i - 1)[t.members[i - 1].name :=
        Slot(start + MainOffset(t.members, i - 1) + 1, t.members[i - 1].size)]
  }

  lemma {:induction false} StagedNames(t: Transaction, start: nat, i: nat)
    requires WellFormed(t) && i <= |t.members|
    ensures |Staged(t, start, i)| == i
    ensures forall k | 0 <= k < |t.members| :: t.members[k].name in Staged(t, start, i) <==> k < i
    ensures forall k | 0 <= k < i ::
              Staged(t, start, i)[t.members[k].name] == Slot(start + MainOffset(t.members, k) + 1, t.members[k].size)
  {
    hide MainOffset, WellFormedMember;
    if i > 0 {
      StagedNames(t, start, i - 1);
      assert t.members[i - 1].name !in Staged(t, start, i - 1);
    }
  }

  /** The entries that transaction `t`, written from block `start`, publishes. */
  function EntriesOf(t: Transaction, start: nat): map<string, Entry>
    requires WellFormed(t)
  {
    StagedNames(t, start, |t.members|);
    Published(Rows(t.members), Staged(t, start, |t.members|), t.id)
  }

  /** A transaction within the budget; one that does not replace may only add names. */
  predicate Admits(t: Transaction, entries: map<string, Entry>) {
    WellFormed(t) && InBudget(t) && (t.replace || forall m <- t.members :: m.name !in entries)
  }

  lemma {:induction false} MemberParts(t: Transaction, i: nat)
    requires i < |t.members|
    ensures var ms, m := t.members, t.members[i];
      && TxBlocks(t) == DataBlocks(t.id, ms) + CommitBlocks(t)
      && MemberBlocks(t.id, m) == HeaderBlocks(t.id, m) + Payload(m.content)
      && MainOffset(ms, i) + 1 == GroupOffset(ms, i) + |HeaderBlocks(t.id, m)|
  {
  }

  lemma {:induction false} MemberAt(blocks: seq<Block>, pos: nat, t: Transaction, i: nat)
    requires At(blocks, pos, TxBlocks(t)) && i < |t.members|
    ensures At(blocks, pos + GroupOffset(t.members, i), HeaderBlocks(t.id, t.members[i]))
    ensures At(blocks, pos + MainOffset(t.members, i) + 1, Payload(t.members[i].content))
  {
    hide *;
    var ms, m := t.members, t.members[i];
    var g, l := GroupOffset(ms, i), MemberLength(m);
    MemberParts(t, i);
    AtSplit(blocks, pos, DataBlocks(t.id, ms), CommitBlocks(t));
    DataSlice(t.id, ms, i);
    AtSlice(blocks, pos, DataBlocks(t.id, ms), g, g + l);
    AtSplit(blocks, pos + g, HeaderBlocks(t.id, m), Payload(m.content));
  }

  lemma {:induction false} NextGroup(ms: seq<Member>, k: nat)
    requires k < |ms|
    ensures GroupOffset(ms, k + 1) == GroupOffset(ms, k) + MemberLength(ms[k])
  {
    if k > 0 {
      NextGroup(ms[1..], k - 1);
    }
  }

  lemma {:induction false} Advance(blocks: seq<Block>, pos: nat, st: ScanState, next: nat, st': ScanState)
    requires ScanStep(blocks, pos, st) == Go(next, st')
    ensures ScanFrom(blocks, pos, st) == ScanFrom(blocks, next, st')
  {
  }

  lemma {:induction false} StepAt(blocks: seq<Block>, pos: nat, st: ScanState, item: Item)
    requires HeaderAvailable(blocks, pos) == Present && NextItem(blocks, pos) == Some(item)
    requires item.at + Units(item.bytes) <= |blocks|
    ensures ScanStep(blocks, pos, st) == if item.kind.Data? then DataStep(item, st) else CommitStep(blocks, item, st)
  {
  }

  lemma {:induction false} ScanOneMember(blocks: seq<Block>, pos: nat, st: ScanState, txn: nat, m: Member)
    requires WellFormedMember(m) && !Oversized(m) && At(blocks, pos, HeaderBlocks(txn, m))
    requires pos + MemberLength(m) <= |blocks|
    requires st.txn == None || st.txn == Some(txn)
    requires m.name !in st.pending
    ensures ScanStep(blocks, pos, st)
         == Go(pos + MemberLength(m),
               st.(txn := Some(txn), pending := st.pending[m.name := Slot(pos + HeaderLength(m), m.size)]))
  {
    ReadHeader(blocks, pos, txn, m);
    StepAt(blocks, pos, st, Item(Data(txn, m.name), m.size, pos + HeaderLength(m)));
  }

  function Midway(st: ScanState, t: Transaction, pos: nat, i: nat): ScanState
    requires i <= |t.members|
  {
    if i == 0 then st else st.(pending := Staged(t, pos, i), txn := Some(t.id))
  }

  lemma {:induction false} MidwayStep(blocks: seq<Block>, pos: nat, st: ScanState, t: Transaction, k: nat)
    requires WellFormed(t) && k < |t.members| && !Oversized(t.members[k])
    requires At(blocks, pos + GroupOffset(t.members, k), HeaderBlocks(t.id, t.members[k]))
    requires pos + GroupOffset(t.members, k + 1) <= |blocks|
    requires st.pending == map[] && st.txn == None
    ensures ScanStep(blocks, pos + GroupOffset(t.members, k), Midway(st, t, pos, k))
         == Go(pos + GroupOffset(t.members, k + 1), Midway(st, t, pos, k + 1))
  {
    hide ScanStep, HeaderBlocks, HeaderLength, Oversized, TxBlocks, GroupOffset;
    StagedNames(t, pos, k);
    NextGroup(t.members, k);
    ScanOneMember(blocks, pos + GroupOffset(t.members, k), Midway(st, t, pos, k), t.id, t.members[k]);
  }

  /** The first `i` members lie behind `pos`, each at its place. */
  ghost predicate MembersAt(blocks: seq<Block>, pos: nat, t: Transaction, i: nat)
    requires i <= |t.members|
  {
    && pos + GroupOffset(t.members, i) <= |blocks|
    && forall k | 0 <= k < i :: At(blocks, pos + GroupOffset(t.members, k), HeaderBlocks(t.id, t.members[k]))
  }

  lemma {:induction false} AllMembersAt(blocks: seq<Block>, pos: nat, t: Transaction)
    requires At(blocks, pos, TxBlocks(t))
    ensures MembersAt(blocks, pos, t, |t.members|)
  {
    hide HeaderBlocks;
    DataLength(t.id, t.members);
    forall k | 0 <= k < |t.members|
      ensures At(blocks, pos + GroupOffset(t.members, k), HeaderBlocks(t.id, t.members[k]))
    {
      MemberAt(blocks, pos, t, k);
    }
  }

  lemma {:induction false} FewerMembersAt(blocks: seq<Block>, pos: nat, t: Transaction, i: nat)
    requires 0 < i <= |t.members| && MembersAt(blocks, pos, t, i)
    ensures MembersAt(blocks, pos, t, i - 1)
    ensures At(blocks, pos + GroupOffset(t.members, i - 1), HeaderBlocks(t.id, t.members[i - 1]))
    ensures pos + GroupOffset(t.members, i) <= |blocks|
  {
    hide At, HeaderBlocks;
    OffsetsGrow(t.members, i - 1, i);
  }

  lemma {:induction false} MidwayStart(st: ScanState, t: Transaction, pos: nat)
    ensures GroupOffset(t.members, 0) == 0 && Midway(st, t, pos, 0) == st
  {
  }

  /** The scanner walks over the members of a transaction one by one. */
  lemma {:induction false} ScanMembers(blocks: seq<Block>, pos: nat, st: ScanState, t: Transaction, i: nat)
    requires WellFormed(t) && i <= |t.members| && MembersAt(blocks, pos, t, i)
    requires forall k | 0 <= k < i :: !Oversized(t.members[k])
    requires st.pending == map[] && st.txn == None
    ensures ScanFrom(blocks, pos, st) == ScanFrom(blocks, pos + GroupOffset(t.members, i), Midway(st, t, pos, i))
  {
    hide *;
    if i == 0 {
      MidwayStart(st, t, pos);
      return;
    }
    FewerMembersAt(blocks, pos, t, i);
    ScanMembers(blocks, pos, st, t, i - 1);
    MidwayStep(blocks, pos, st, t, i - 1);
    Advance(blocks, pos + GroupOffset(t.members, i - 1), Midway(st, t, pos, i - 1),
            pos + GroupOffset(t.members, i), Midway(st, t, pos, i));
  }

  lemma {:induction false} ReadCommit(blocks: seq<Block>, pos: nat, t: Transaction)
    requires At(blocks, pos, CommitBlocks(t))
    ensures HeaderAvailable(blocks, pos) == Present
    ensures NextItem(blocks, pos) == Some(Item(Commit(t.id), CommitBytes(t), pos + 1))
    ensures pos + 1 + Units(CommitBytes(t)) <= |blocks|
    ensures ParseRecord(blocks, Item(Commit(t.id), CommitBytes(t), pos + 1)) == Some(RecordOf(t))
  {
    var head := [Head(Commit(t.id), CommitBytes(t))];
    AtSplit(blocks, pos, head, RecordBlocks(RecordOf(t)));
    assert blocks[pos] == blocks[pos..pos + 1][0];
  }

  lemma {:induction false} RowsAccepted(t: Transaction, pos: nat, st: ScanState)
    requires Admits(t, st.entries)
    requires st.pending == Staged(t, pos, |t.members|) && st.txn == Some(t.id)
    ensures Accepts(RecordOf(t), t.id, st)
  {
    var n := |t.members|;
    StagedNames(t, pos, n);
    forall row | row in Rows(t.members)
      ensures row.name in st.pending && row.bytes == st.pending[row.name].bytes
      ensures t.replace || row.name !in st.entries
    {
      var k :| 0 <= k < n && Rows(t.members)[k] == row;
      assert t.members[k] in t.members;
    }
  }

  lemma {:induction false} ScanCommit(blocks: seq<Block>, pos: nat, start: nat, st: ScanState, t: Transaction)
    requires Admits(t, st.entries) && At(blocks, pos, CommitBlocks(t))
    requires st.pending == Staged(t, start, |t.members|) && st.txn == Some(t.id)
    ensures ScanStep(blocks, pos, st)
         == Go(pos + |CommitBlocks(t)|,
               ScanState(st.entries + EntriesOf(t, start), map[], None, pos + |CommitBlocks(t)|))
  {
    ReadCommit(blocks, pos, t);
    RowsAccepted(t, start, st);
    StepAt(blocks, pos, st, Item(Commit(t.id), CommitBytes(t), pos + 1));
  }

  lemma {:induction false} NoneOversized(t: Transaction)
    requires WellFormed(t) && InBudget(t)
    ensures forall k | 0 <= k < |t.members| :: !Oversized(t.members[k])
  {
    hide Oversized, InBudget;
    forall k | 0 <= k < |t.members|
      ensures !Oversized(t.members[k])
    {
      HeadersInBudget(t, t.members[k]);
    }
  }

  lemma {:induction false} CommitAt(blocks: seq<Block>, pos: nat, t: Transaction)
    requires At(blocks, pos, TxBlocks(t))
    ensures At(blocks, pos + GroupOffset(t.members, |t.members|), CommitBlocks(t))
    ensures |TxBlocks(t)| == GroupOffset(t.members, |t.members|) + |CommitBlocks(t)|
  {
    hide At, GroupOffset;
    DataLength(t.id, t.members);
    AtSplit(blocks, pos, DataBlocks(t.id, t.members), CommitBlocks(t));
  }

  lemma {:induction false} MidwayEnd(st: ScanState, t: Transaction, pos: nat)
    requires Admits(t, st.entries)
    ensures WellFormed(t) && t.members != [] && InBudget(t)
    ensures Midway(st, t, pos, |t.members|) == st.(pending := Staged(t, pos, |t.members|), txn := Some(t.id))
  {
  }

  /** One whole transaction: the scanner lands behind it with its entries published. */
  lemma {:induction false} ScanThrough(blocks: seq<Block>, pos: nat, st: ScanState, t: Transaction)
    requires At(blocks, pos, TxBlocks(t)) && Admits(t, st.entries)
    requires st.pending == map[] && st.txn == None
    ensures ScanFrom(blocks, pos, st)
         == ScanFrom(blocks, pos + |TxBlocks(t)|,
                     ScanState(st.entries + EntriesOf(t, pos), map[], None, pos + |TxBlocks(t)|))
  {
    hide *;
    var n := |t.members|;
    var at, mid := pos + GroupOffset(t.members, n), Midway(st, t, pos, n);
    MidwayEnd(st, t, pos);
    NoneOversized(t);
    AllMembersAt(blocks, pos, t);
    CommitAt(blocks, pos, t);
    ScanMembers(blocks, pos, st, t, n);
    ScanCommit(blocks, at, pos, mid, t);
    Advance(blocks, at, mid, pos + |TxBlocks(t)|,
            ScanState(st.entries + EntriesOf(t, pos), map[], None, pos + |TxBlocks(t)|));
  }

  // ----- the committed log -----

  function LogBlocks(log: seq<Transaction>): seq<Block> {
    if log == [] then [] else LogBlocks(log[..|log| - 1]) + TxBlocks(log[|log| - 1])
  }

  function LogEntries(log: seq<Transaction>): map<string, Entry>
    requires forall t <- log :: WellFormed(t)
  {
    if log == [] then map[]
    else LogEntries(log[..|log| - 1]) + EntriesOf(log[|log| - 1], |LogBlocks(log[..|log| - 1])|)
  }

  predicate LogOk(log: seq<Transaction>) {
    && (forall t <- log :: WellFormed(t))
    && (log != [] ==> LogOk(log[..|log| - 1]) && Admits(log[|log| - 1], LogEntries(log[..|log| - 1])))
  }

  function Behind(log: seq<Transaction>): ScanState
    requires forall t <- log :: WellFormed(t)
  {
    ScanState(LogEntries(log), map[], None, |LogBlocks(log)|)
  }

  lemma {:induction false} LastAt(blocks: seq<Block>, log: seq<Transaction>)
    requires log != [] && LogBlocks(log) <= blocks
    ensures LogBlocks(log[..|log| - 1]) <= blocks
    ensures At(blocks, |LogBlocks(log[..|log| - 1])|, TxBlocks(log[|log| - 1]))
  {
    AtSplit(blocks, 0, LogBlocks(log[..|log| - 1]), TxBlocks(log[|log| - 1]));
  }

  lemma {:induction false} LastOk(log: seq<Transaction>)
    requires log != [] && LogOk(log)
    ensures var init, t := log[..|log| - 1], log[|log| - 1];
            var pos := |LogBlocks(init)|;
            && LogOk(init)
            && (forall u <- init :: WellFormed(u))
            && Behind(init).pending == map[] && Behind(init).txn == None
            && Admits(t, Behind(init).entries)
            && |LogBlocks(log)| == pos + |TxBlocks(t)|
            && Behind(log) == ScanState(Behind(init).entries + EntriesOf(t, pos), map[], None, pos + |TxBlocks(t)|)
  {
    hide EntriesOf, WellFormed, TxBlocks;
  }

  /** Whatever follows the log, the scanner reaches its end having published exactly its fold. */
  lemma {:induction false} ScanLog(blocks: seq<Block>, log: seq<Transaction>)
    requires LogOk(log) && LogBlocks(log) <= blocks
    ensures Scan(blocks) == ScanFrom(blocks, |LogBlocks(log)|, Behind(log))
  {
    hide ScanFrom;
    if log == [] {
      return;
    }
    var init, t := log[..|log| - 1], log[|log| - 1];
    LastAt(blocks, log);
    LastOk(log);
    hide *;
    ScanLog(blocks, init);
    ScanThrough(blocks, |LogBlocks(init)|, Behind(init), t);
  }

  /** Every entry of the fold points at the bytes its writer handed over. */
  ghost predicate Readable(blocks: seq<Block>, e: Entry) {
    && e.bytes == e.sha.size
    && At(blocks, e.offset, Payload(e.sha.content))
  }

  lemma {:induction false} PublishedRow(rows: seq<Row>, pending: map<string, Slot>, txn: nat, name: string)
    requires forall row <- rows :: row.name in pending
    requires name in Published(rows, pending, txn)
    ensures exists k | 0 <= k < |rows| ::
              rows[k].name == name
              && Published(rows, pending, txn)[name]
                  == Entry(pending[name].offset, pending[name].bytes, rows[k].sha, txn)
  {
    var last := |rows| - 1;
    if rows[last].name != name {
      PublishedRow(rows[..last], pending, txn, name);
    }
  }

  lemma {:induction false} EntryReadable(blocks: seq<Block>, t: Transaction, start: nat, name: string)
    requires WellFormed(t) && At(blocks, start, TxBlocks(t)) && name in EntriesOf(t, start)
    ensures Readable(blocks, EntriesOf(t, start)[name])
  {
    hide At, TxBlocks, WellFormed, Staged;
    var n := |t.members|;
    StagedNames(t, start, n);
    PublishedRow(Rows(t.members), Staged(t, start, n), t.id, name);
    var k :| 0 <= k < n && Rows(t.members)[k].name == name
             && EntriesOf(t, start)[name] == Entry(Staged(t, start, n)[name].offset, Staged(t, start, n)[name].bytes,
                                                   Rows(t.members)[k].sha, t.id);
    MemberAt(blocks, start, t, k);
  }

  lemma {:induction false} LogReadable(blocks: seq<Block>, log: seq<Transaction>, name: string)
    requires LogOk(log) && LogBlocks(log) <= blocks && name in LogEntries(log)
    ensures Readable(blocks, LogEntries(log)[name])
  {
    var init, t := log[..|log| - 1], log[|log| - 1];
    var pos := |LogBlocks(init)|;
    LastAt(blocks, log);
    if name in EntriesOf(t, pos) {
      EntryReadable(blocks, t, pos, name);
    } else {
      LogReadable(blocks, init, name);
    }
  }
}
