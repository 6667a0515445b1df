/** Torn appends: the plain cut, the header that brings a transaction back, and the header that locks. */
module ArchiveTorn {
  // A file that ends inside a transaction scans as its log. A first header that does not name its
  // transaction can bring a rolled-back transaction back. An extended header over the metadata budget locks
  // the archive once it has reached the file and its append stops.

  import opened ArchiveFormat
  import opened Options
  import opened ArchiveLayout
  import opened ArchiveLog
  import opened ArchiveTail
  import opened ArchiveRuns
  import opened ArchiveSafety

  /** The file is what remains of `prefix + TxBlocks(t)` after its first `n` blocks. */
  predicate Cut(blocks: seq<Block>, prefix: seq<Block>, t: Transaction, n: nat) {
    && |prefix| <= n < |prefix| + |TxBlocks(t)|
    && blocks == (prefix + TxBlocks(t))[..n]
  }

  lemma {:induction false} CutAt(blocks: seq<Block>, prefix: seq<Block>, t: Transaction, n: nat, pos: nat,
        bs: seq<Block>)
    requires Cut(blocks, prefix, t, n) && At(prefix + TxBlocks(t), pos, bs) && pos + |bs| <= n
    ensures At(blocks, pos, bs)
  {
    var whole := prefix + TxBlocks(t);
    assert whole[..n][pos..pos + |bs|] == whole[pos..pos + |bs|];
  }

  /** Some extended header over the metadata budget starts within the first `k` blocks. */
  predicate Reaches(t: Transaction, k: nat) {
    exists j | 0 <= j < |t.members| :: Oversized(t.members[j]) && GroupOffset(t.members, j) < k
  }

  /** A header of which blocks are missing at the end of the file reads as no header. */
  lemma {:induction false} CutHeader(blocks: seq<Block>, prefix: seq<Block>, t: Transaction, n: nat, pos: nat,
        m: Member)
    requires Cut(blocks, prefix, t, n) && (pos < n ==> !Oversized(m))
    requires At(prefix + TxBlocks(t), pos, HeaderBlocks(t.id, m)) && n < pos + HeaderLength(m)
    ensures HeaderAvailable(blocks, pos) == Absent
  {
    if pos < n {
      var whole := prefix + TxBlocks(t);
      assert whole[pos] == whole[pos..pos + |HeaderBlocks(t.id, m)|][0] == Ext(Parts(m));
      assert blocks[pos] == whole[pos];
    }
  }

  lemma {:induction false} CutLength(blocks: seq<Block>, prefix: seq<Block>, t: Transaction, n: nat)
    requires Cut(blocks, prefix, t, n)
    ensures |blocks| == n && |prefix| <= n
  {
  }

  lemma {:induction false} CutMember(blocks: seq<Block>, prefix: seq<Block>, t: Transaction, n: nat, i: nat,
        st: ScanState)
    requires Cut(blocks, prefix, t, n) && WellFormed(t) && i < |t.members|
    requires |prefix| + GroupOffset(t.members, i) < n ==> !Oversized(t.members[i])
    requires n < |prefix| + GroupOffset(t.members, i) + MemberLength(t.members[i])
    ensures ScanStep(blocks, |prefix| + GroupOffset(t.members, i), st) == Stop
  {
    hide *;
    var whole := prefix + TxBlocks(t);
    var pos, m := |prefix| + GroupOffset(t.members, i), t.members[i];
    MemberMeasures(t, i);
    CutLength(blocks, prefix, t, n);
    WholeMemberAt(prefix, t, i);
    if n < pos + HeaderLength(m) {
      CutHeader(blocks, prefix, t, n, pos, m);
      NoHeaderStops(blocks, pos, st);
    } else {
      CutAt(blocks, prefix, t, n, pos, HeaderBlocks(t.id, m));
      ReadHeader(blocks, pos, t.id, m);
      ShortItemStops(blocks, pos, st, Item(Data(t.id, m.name), m.size, pos + HeaderLength(m)));
    }
  }

  lemma {:induction false} WholeMemberAt(prefix: seq<Block>, t: Transaction, i: nat)
    requires i < |t.members|
    ensures At(prefix + TxBlocks(t), |prefix| + GroupOffset(t.members, i), HeaderBlocks(t.id, t.members[i]))
  {
    hide TxBlocks, GroupOffset, HeaderBlocks;
    AtSplit(prefix + TxBlocks(t), 0, prefix, TxBlocks(t));
    MemberAt(prefix + TxBlocks(t), |prefix|, t, i);
  }

  lemma {:induction false} MemberMeasures(t: Transaction, i: nat)
    requires WellFormed(t) && i < |t.members|
    ensures MemberLength(t.members[i]) == HeaderLength(t.members[i]) + Units(t.members[i].size)
    ensures |HeaderBlocks(t.id, t.members[i])| == HeaderLength(t.members[i]) >= 1
  {
    assert WellFormedMember(t.members[i]);
  }

  lemma {:induction false} NoHeaderStops(blocks: seq<Block>, pos: nat, st: ScanState)
    requires HeaderAvailable(blocks, pos) == Absent
    ensures ScanStep(blocks, pos, st) == Stop
  {
  }

  lemma {:induction false} ShortItemStops(blocks: seq<Block>, pos: nat, st: ScanState, item: Item)
    requires HeaderAvailable(blocks, pos) == Present && NextItem(blocks, pos) == Some(item)
    requires item.at + Units(item.bytes) > |blocks|
    ensures ScanStep(blocks, pos, st) == Stop
  {
  }

  lemma {:induction false} CutCommit(blocks: seq<Block>, prefix: seq<Block>, t: Transaction, n: nat, st: ScanState)
    requires Cut(blocks, prefix, t, n) && WellFormed(t)
    requires |prefix| + GroupOffset(t.members, |t.members|) <= n
    ensures ScanStep(blocks, |prefix| + GroupOffset(t.members, |t.members|), st) == Stop
  {
    var whole := prefix + TxBlocks(t);
    var pos := |prefix| + GroupOffset(t.members, |t.members|);
    TxLength(t);
    DataLength(t.id, t.members);
    AtSplit(whole, 0, prefix, TxBlocks(t));
    AtSplit(whole, |prefix|, DataBlocks(t.id, t.members), CommitBlocks(t));
    if pos < n {
      assert whole[pos] == whole[pos..pos + |CommitBlocks(t)|][0];
      assert blocks[pos] == Head(Commit(t.id), CommitBytes(t));
      assert NextItem(blocks, pos) == Some(Item(Commit(t.id), CommitBytes(t), pos + 1));
    }
  }

  lemma {:induction false} Halts(blocks: seq<Block>, pos: nat, st: ScanState)
    requires ScanStep(blocks, pos, st) == Stop
    ensures ScanFrom(blocks, pos, st) == Ok(st.entries, st.end)
  {
  }

  lemma {:induction false} CutScan(blocks: seq<Block>, prefix: seq<Block>, t: Transaction, n: nat, i: nat,
        st: ScanState)
    requires Cut(blocks, prefix, t, n) && WellFormed(t) && i <= |t.members| && !Reaches(t, n - |prefix|)
    requires |prefix| + GroupOffset(t.members, i) <= n
    requires st.pending == map[] && st.txn == None
    ensures ScanFrom(blocks, |prefix| + GroupOffset(t.members, i), Midway(st, t, |prefix|, i)) == Ok(st.entries, st.end)
    decreases |t.members| - i
  {
    hide *;
    var ms := t.members;
    var pos, mid := |prefix| + GroupOffset(ms, i), Midway(st, t, |prefix|, i);
    CutLength(blocks, prefix, t, n);
    if i == |ms| {
      CutAtCommit(blocks, prefix, t, n, st);
    } else {
      NextGroup(ms, i);
      MemberIsLong(ms[i]);
      if pos < n {
        NotReached(t, n - |prefix|, i);
      }
      if n < pos + MemberLength(ms[i]) {
        CutAtMember(blocks, prefix, t, n, i, st);
      } else {
        CutStep(blocks, prefix, t, n, i, st);
        Advance(blocks, pos, mid, |prefix| + GroupOffset(ms, i + 1), Midway(st, t, |prefix|, i + 1));
        CutScan(blocks, prefix, t, n, i + 1, st);
      }
    }
  }

  lemma {:induction false} CutAtCommit(blocks: seq<Block>, prefix: seq<Block>, t: Transaction, n: nat, st: ScanState)
    requires Cut(blocks, prefix, t, n) && WellFormed(t) && |prefix| + GroupOffset(t.members, |t.members|) <= n
    ensures ScanFrom(blocks, |prefix| + GroupOffset(t.members, |t.members|), Midway(st, t, |prefix|, |t.members|))
         == Ok(st.entries, st.end)
  {
    hide *;
    var mid := Midway(st, t, |prefix|, |t.members|);
    MidwayStays(st, t, |prefix|, |t.members|);
    CutCommit(blocks, prefix, t, n, mid);
    Halts(blocks, |prefix| + GroupOffset(t.members, |t.members|), mid);
  }

  lemma {:induction false} CutAtMember(blocks: seq<Block>, prefix: seq<Block>, t: Transaction, n: nat, i: nat,
        st: ScanState)
    requires Cut(blocks, prefix, t, n) && WellFormed(t) && i < |t.members|
    requires |prefix| + GroupOffset(t.members, i) < n ==> !Oversized(t.members[i])
    requires n < |prefix| + GroupOffset(t.members, i) + MemberLength(t.members[i])
    ensures ScanFrom(blocks, |prefix| + GroupOffset(t.members, i), Midway(st, t, |prefix|, i)) == Ok(st.entries, st.end)
  {
    hide *;
    var mid := Midway(st, t, |prefix|, i);
    MidwayStays(st, t, |prefix|, i);
    CutMember(blocks, prefix, t, n, i, mid);
    Halts(blocks, |prefix| + GroupOffset(t.members, i), mid);
  }

  lemma {:induction false} NotReached(t: Transaction, k: nat, i: nat)
    requires !Reaches(t, k) && i < |t.members| && GroupOffset(t.members, i) < k
    ensures !Oversized(t.members[i])
  {
    hide Oversized, GroupOffset;
  }

  lemma {:induction false} MidwayStays(st: ScanState, t: Transaction, pos: nat, i: nat)
    requires i <= |t.members|
    ensures Midway(st, t, pos, i).entries == st.entries && Midway(st, t, pos, i).end == st.end
  {
  }

  lemma {:induction false} MemberIsLong(m: Member)
    ensures MemberLength(m) >= 1
  {
  }

  lemma {:induction false} CutStep(blocks: seq<Block>, prefix: seq<Block>, t: Transaction, n: nat, i: nat,
        st: ScanState)
    requires Cut(blocks, prefix, t, n) && WellFormed(t) && i < |t.members| && !Oversized(t.members[i])
    requires |prefix| + GroupOffset(t.members, i) + MemberLength(t.members[i]) <= n
    requires st.pending == map[] && st.txn == None
    ensures ScanStep(blocks, |prefix| + GroupOffset(t.members, i), Midway(st, t, |prefix|, i))
         == Go(|prefix| + GroupOffset(t.members, i + 1), Midway(st, t, |prefix|, i + 1))
  {
    hide *;
    WholeMemberAt(prefix, t, i);
    MemberMeasures(t, i);
    CutLength(blocks, prefix, t, n);
    CutAt(blocks, prefix, t, n, |prefix| + GroupOffset(t.members, i), HeaderBlocks(t.id, t.members[i]));
    NextGroup(t.members, i);
    MidwayStep(blocks, |prefix|, st, t, i);
  }

  /** A transaction torn at any block over a file that ended at the committed end
      recovers to exactly the committed index, unless a header over the budget has reached it. */
  lemma {:induction false} TornTailRecovers(log: seq<Transaction>, t: Transaction, blocks: seq<Block>, n: nat)
    requires LogOk(log) && WellFormed(t) && Cut(blocks, LogBlocks(log), t, n) && !Reaches(t, n - |LogBlocks(log)|)
    ensures Scan(blocks) == Ok(LogEntries(log), |LogBlocks(log)|)
  {
    hide ScanFrom, Scan, LogBlocks, LogEntries, TxBlocks, WellFormed, Reaches;
    assert LogBlocks(log) <= blocks;
    ScanLog(blocks, log);
    CutScan(blocks, LogBlocks(log), t, n, 0, Behind(log));
  }

  lemma {:induction false} StopsAtZero(blocks: seq<Block>, log: seq<Transaction>)
    requires LogOk(log) && |LogBlocks(log)| < |blocks| && blocks[|LogBlocks(log)|] == Zero
    ensures ScanFrom(blocks, |LogBlocks(log)|, Behind(log)) == Ok(LogEntries(log), |LogBlocks(log)|)
  {
    hide LogBlocks, LogEntries;
  }

  // ----- the header that anybody could have written -----

  /** When a transaction's first extended header carries only a size, one rolled back
      after its commit record returns: a retry under a fresh identity that stops after two
      blocks rewrites the two blocks that the rollback had zeroed. */
  lemma {:induction false} UnsignedHeaderRevives(t: Transaction, retry: nat)
    requires WellFormed(t) && InBudget(t) && !SignsFirstHeader(t) && !Refused(map[], t, None) && retry != t.id
    ensures var failed := Append(t, None, Raise(|TxBlocks(t)|, 2));
            var torn := Append(t.(id := retry), None, Die(2));
            var s := Run(Empty, [failed, torn]);
            && s.log == []
            && Scan(s.blocks) == Ok(EntriesOf(t, 0), |TxBlocks(t)|)
            && t.members[0].name in EntriesOf(t, 0)
  {
    hide TxBlocks, Next, Refused, WellFormed, SignsFirstHeader, Run, ScanFrom, EntriesOf;
    HasFirst(t);
    var failed := Append(t, None, Raise(|TxBlocks(t)|, 2));
    var t' := t.(id := retry);
    var torn := Append(t', None, Die(2));
    TxLength(t);
    RunOfTwo(failed, torn);
    FirstFails(t);
    RetryTears(t, t');
    var s := Next(Next(Empty, failed), torn);
    AtSplit(s.blocks, 0, [], TxBlocks(t));
    assert [] + TxBlocks(t) == TxBlocks(t);
    ScanThrough(s.blocks, 0, Fresh, t);
    assert map[] + EntriesOf(t, 0) == EntriesOf(t, 0);
    EmptyTail(s.blocks, EntriesOf(t, 0));
    PublishedNames(t, 0);
  }

  lemma {:induction false} HasFirst(t: Transaction)
    requires WellFormed(t)
    ensures t.members != [] && t.members[0] in t.members
  {
  }

  lemma {:induction false} EmptyTail(blocks: seq<Block>, entries: map<string, Entry>)
    ensures ScanFrom(blocks, |blocks|, ScanState(entries, map[], None, |blocks|)) == Ok(entries, |blocks|)
  {
  }

  lemma {:induction false} RunOfTwo(e: Append, f: Append)
    ensures Run(Empty, [e, f]) == Next(Next(Empty, e), f)
  {
    hide Next;
    assert [e, f][..1] == [e] && [e][..0] == [];
    assert Run(Empty, [e]) == Next(Run(Empty, []), e);
  }

  lemma {:induction false} FirstFails(t: Transaction)
    requires WellFormed(t) && InBudget(t) && !Refused(map[], t, None) && |TxBlocks(t)| >= 3
    ensures Next(Empty, Append(t, None, Raise(|TxBlocks(t)|, 2)))
         == System(Footer + TxBlocks(t)[2..], [], [Attempt(0, t)])
  {
    AfterRollback(t);
    hide TxBlocks, Refused;
    assert Scan([]) == Ok(map[], 0);
  }

  lemma {:induction false} RetryTears(t: Transaction, t': Transaction)
    requires WellFormed(t) && InBudget(t) && !SignsFirstHeader(t) && !Refused(map[], t, None) && |TxBlocks(t)| >= 3
    requires t' == t.(id := t'.id)
    ensures Next(System(Footer + TxBlocks(t)[2..], [], [Attempt(0, t)]), Append(t', None, Die(2)))
         == System(TxBlocks(t), [], [Attempt(0, t), Attempt(0, t')])
  {
    TxLength(t');
    AfterRetry(t, t');
    assert !Refused(map[], t', None);
    hide TxBlocks, Refused, AppendBlocks;
    assert Scan(Footer + TxBlocks(t)[2..]) == Ok(map[], 0);
  }

  lemma {:induction false} AfterRollback(t: Transaction)
    requires |TxBlocks(t)| >= 3
    ensures AppendBlocks([], 0, t, Raise(|TxBlocks(t)|, 2)) == Footer + TxBlocks(t)[2..]
  {
    hide TxBlocks;
    assert First(Script(t), |TxBlocks(t)|) == TxBlocks(t);
    hide Script, First;
    RolledBackOver(TxBlocks(t));
    assert First(Footer, 2) == Footer by {
      WholeFooter();
    }
  }

  lemma {:induction false} WholeFooter()
    ensures First(Footer, 2) == Footer
  {
  }

  lemma {:induction false} RolledBackOver(bs: seq<Block>)
    requires |bs| >= 3
    ensures Overlay(Overlay(Zeroed([], 0), 0, bs), 0, Footer) == Footer + bs[2..]
  {
    assert Zeroed([], 0) == Footer;
    assert Overlay(Footer, 0, bs) == bs;
  }

  lemma {:induction false} AfterRetry(t: Transaction, t': Transaction)
    requires WellFormed(t) && !SignsFirstHeader(t) && t' == t.(id := t'.id) && |TxBlocks(t)| >= 3
    ensures AppendBlocks(Footer + TxBlocks(t)[2..], 0, t', Die(2)) == TxBlocks(t)
  {
    TxLength(t');
    UnsignedStart(t);
    UnsignedStart(t');
    hide TxBlocks, WellFormed, SignsFirstHeader;
    var blocks := Footer + TxBlocks(t)[2..];
    assert At(blocks, 0, Footer);
    assert First(Script(t'), 2) == TxBlocks(t')[..2] == TxBlocks(t)[..2];
  }

  lemma {:induction false} UnsignedStart(t: Transaction)
    requires WellFormed(t) && !SignsFirstHeader(t) && |TxBlocks(t)| >= 3
    ensures TxBlocks(t)[..2] == [Ext(1), Pax(None, Some(t.members[0].size), 0, 1)]
  {
    var m := t.members[0];
    SizeFitsOneBlock(m);
    var hs := HeaderBlocks(t.id, m);
    assert hs == [Ext(1), Pax(None, Some(m.size), 0, 1)] + hs[2..];
    assert TxBlocks(t)[..2] == [Ext(1), Pax(None, Some(m.size), 0, 1)];
  }

  // ----- headers over the metadata budget -----

  lemma {:induction false} LogIsWellFormed(log: seq<Transaction>)
    requires LogOk(log)
    ensures forall t <- log :: WellFormed(t)
  {
  }

  lemma {:induction false} LeastReached(t: Transaction, k: nat) returns (j: nat)
    requires Reaches(t, k)
    ensures j < |t.members| && Oversized(t.members[j]) && GroupOffset(t.members, j) < k
    ensures forall i | 0 <= i < j :: !Oversized(t.members[i])
  {
    hide Oversized, GroupOffset;
    var b: nat :| b < |t.members| && Oversized(t.members[b]) && GroupOffset(t.members, b) < k;
    j := 0;
    while j < b && !Oversized(t.members[j])
      invariant j <= b && forall i | 0 <= i < j :: !Oversized(t.members[i])
    {
      j := j + 1;
    }
    if j < b {
      OffsetsGrow(t.members, j, b);
    }
  }

  /** Once an extended header over the metadata budget has reached the file, at any member of the
      transaction and over any leftovers, a scan fails. */
  lemma {:induction false} OversizedHeaderLocks(log: seq<Transaction>, t: Transaction, blocks: seq<Block>, k: nat)
    requires LogOk(log) && WellFormed(t) && k <= |TxBlocks(t)| && Reaches(t, k)
    requires LogBlocks(log) + TxBlocks(t)[..k] <= blocks
    ensures Scan(blocks) == ArchiveError
  {
    hide *;
    LogIsWellFormed(log);
    var end, whole := |LogBlocks(log)|, LogBlocks(log) + TxBlocks(t);
    CutOfWhole(log, t, blocks, k);
    ScanLog(blocks, log);
    BehindIsIdle(log);
    var j := LeastReached(t, k);
    OversizedAt(blocks, whole, end, t, j, k, Behind(log));
  }

  lemma {:induction false} BehindIsIdle(log: seq<Transaction>)
    requires forall t <- log :: WellFormed(t)
    ensures Behind(log).pending == map[] && Behind(log).txn == None
  {
  }

  lemma {:induction false} CutOfWhole(log: seq<Transaction>, t: Transaction, blocks: seq<Block>, k: nat)
    requires k <= |TxBlocks(t)| && LogBlocks(log) + TxBlocks(t)[..k] <= blocks
    ensures var end, whole := |LogBlocks(log)|, LogBlocks(log) + TxBlocks(t);
      && LogBlocks(log) <= blocks && end + k <= |blocks| && end + k <= |whole|
      && blocks[..end + k] == whole[..end + k] && At(whole, end, TxBlocks(t))
  {
    hide LogBlocks, TxBlocks;
    var end, whole := |LogBlocks(log)|, LogBlocks(log) + TxBlocks(t);
    assert whole[..end + k] == LogBlocks(log) + TxBlocks(t)[..k] == blocks[..end + k];
  }

  lemma {:induction false} OversizedAt(blocks: seq<Block>, whole: seq<Block>, end: nat, t: Transaction, j: nat,
        k: nat, st: ScanState)
    requires At(whole, end, TxBlocks(t)) && WellFormed(t) && end + k <= |blocks| && end + k <= |whole|
    requires blocks[..end + k] == whole[..end + k]
    requires j < |t.members| && Oversized(t.members[j]) && GroupOffset(t.members, j) < k
    requires forall i | 0 <= i < j :: !Oversized(t.members[i])
    requires st.pending == map[] && st.txn == None
    ensures ScanFrom(blocks, end, st) == ArchiveError
  {
    hide *;
    var pos := end + GroupOffset(t.members, j);
    AllMembersAt(whole, end, t);
    StillAt(blocks, whole, end, t, j, end + k);
    ScanMembers(blocks, end, st, t, j);
    MemberAt(whole, end, t, j);
    assert blocks[..pos + 1] == blocks[..end + k][..pos + 1] == whole[..pos + 1];
    OversizedFails(blocks, pos, t.id, t.members[j], Midway(st, t, end, j), whole);
  }

  lemma {:induction false} HeaderWithin(txn: nat, m: Member)
    ensures |HeaderBlocks(txn, m)| <= MemberLength(m)
  {
  }

  /** The members that lie wholly within the first `n` blocks are in any file that begins with them. */
  lemma {:induction false} StillAt(blocks: seq<Block>, whole: seq<Block>, pos: nat, t: Transaction, j: nat, n: nat)
    requires MembersAt(whole, pos, t, |t.members|) && j <= |t.members| && pos + GroupOffset(t.members, j) <= n
    requires n <= |blocks| && n <= |whole| && blocks[..n] == whole[..n]
    ensures MembersAt(blocks, pos, t, j)
  {
    hide HeaderBlocks, HeaderLength, GroupOffset, MemberLength;
    forall i | 0 <= i < j
      ensures At(blocks, pos + GroupOffset(t.members, i), HeaderBlocks(t.id, t.members[i]))
    {
      OffsetsGrow(t.members, i, j);
      HeaderWithin(t.id, t.members[i]);
      SameSlice(blocks, whole, n, pos + GroupOffset(t.members, i), HeaderBlocks(t.id, t.members[i]));
    }
  }

  lemma {:induction false} SameSlice(blocks: seq<Block>, whole: seq<Block>, n: nat, pos: nat, bs: seq<Block>)
    requires n <= |blocks| && n <= |whole| && blocks[..n] == whole[..n] && pos + |bs| <= n && At(whole, pos, bs)
    ensures At(blocks, pos, bs)
  {
    assert blocks[..n][pos..pos + |bs|] == blocks[pos..pos + |bs|];
    assert whole[..n][pos..pos + |bs|] == whole[pos..pos + |bs|];
  }

  lemma {:induction false} OversizedFails(blocks: seq<Block>, pos: nat, txn: nat, m: Member, st: ScanState,
        whole: seq<Block>)
    requires Oversized(m) && At(whole, pos, HeaderBlocks(txn, m))
    requires pos < |blocks| && blocks[..pos + 1] == whole[..pos + 1]
    ensures ScanFrom(blocks, pos, st) == ArchiveError
  {
    assert blocks[pos] == blocks[..pos + 1][pos] == whole[pos];
    assert whole[pos] == whole[pos..pos + |HeaderBlocks(txn, m)|][0] == Ext(Parts(m));
  }

  /** An archive that cannot be scanned stays as it is: every later append is refused. */
  lemma {:induction false} LockedStays(s: System, es: seq<Append>)
    requires Scan(s.blocks).ArchiveError?
    ensures Run(s, es) == s
  {
    hide Scan;
    if es != [] {
      LockedStays(s, es[..|es| - 1]);
    }
  }

  /** After how many blocks the append stopped with none of them zeroed again: it dies, or fails and dies
      before it rolls back. */
  function StopOf(t: Transaction, fault: Fault): Option<nat> {
    match Budgeted(t, fault)
    case Die(k) => Some(k)
    case Raise(k, z) => if z == 0 then Some(k) else None
    case _ => None
  }

  lemma {:induction false} StoppedWrites(blocks: seq<Block>, end: nat, t: Transaction, fault: Fault)
    requires end <= |blocks| && StopOf(t, fault).Some?
    ensures AppendBlocks(blocks, end, t, Budgeted(t, fault))
            == AppendBlocks(blocks, end, t, Die(StopOf(t, fault).value))
    ensures Commits(t, Budgeted(t, fault)) <==> |TxBlocks(t)| <= StopOf(t, fault).value
    ensures !Budgeted(t, fault).Before?
    ensures InBudget(t) || ShortOfCommit(t, StopOf(t, fault).value)
  {
    hide TxBlocks, DataBlocks, Script, Zeroed, InBudget, ShortOfCommit;
    BudgetedIsShort(t, fault);
    var k := StopOf(t, fault).value;
    assert First(Footer, 0) == [];
    var r := AppendBlocks(blocks, end, t, Die(k));
    assert Overlay(r, end, []) == r;
  }

  /** The append stopped when a header over the budget was among the blocks it had written. */
  predicate Locks(t: Transaction, fault: Fault) {
    StopOf(t, fault).Some? && Reaches(t, StopOf(t, fault).value)
  }

  /** Over any leftovers, such an append locks the archive for good. */
  lemma {:induction false} LocksForGood(s: System, e: Append, later: seq<Append>)
    requires Inv(s) && Sound(s, e) && Scan(s.blocks).Ok? && !Refused(LogEntries(s.log), e.t, e.prefix)
    requires Locks(e.t, e.fault)
    ensures Scan(Next(s, e).blocks) == ArchiveError
    ensures Run(Next(s, e), later) == Next(s, e)
  {
    var t, k := e.t, StopOf(e.t, e.fault).value;
    WhenAdmitted(s, e);
    SoundIsAdmitted(s, e);
    StoppedWrites(s.blocks, |LogBlocks(s.log)|, t, e.fault);
    InvKeepsLog(s);
    hide Inv, Next, Refused, Scan, LogBlocks, LogOk, Reaches, TxBlocks, WellFormed, Sound, Budgeted, StopOf;
    ReachedIsShort(t, k);
    DieWrites(s.blocks, LogBlocks(s.log), t, k);
    OversizedHeaderLocks(s.log, t, Next(s, e).blocks, k);
    LockedStays(Next(s, e), later);
  }

  /** What reaches an oversized header is over the budget, so it stops before its commit record. */
  lemma {:induction false} ReachedIsShort(t: Transaction, k: nat)
    requires WellFormed(t) && Reaches(t, k) && (InBudget(t) || ShortOfCommit(t, k))
    ensures !InBudget(t) && k <= |TxBlocks(t)|
  {
    hide Reaches, Oversized, InBudget, GroupOffset, DataBlocks;
    var j := LeastReached(t, k);
    if InBudget(t) {
      HeadersInBudget(t, t.members[j]);
    }
  }

  lemma {:induction false} DieWrites(blocks: seq<Block>, prefix: seq<Block>, t: Transaction, k: nat)
    requires prefix <= blocks && k <= |TxBlocks(t)|
    ensures prefix + TxBlocks(t)[..k] <= AppendBlocks(blocks, |prefix|, t, Die(k))
  {
    hide TxBlocks;
    assert First(Script(t), k) == TxBlocks(t)[..k];
    var z := Zeroed(blocks, |prefix|);
    assert z[..|prefix|] == prefix;
    PrefixGrows(z, prefix, TxBlocks(t)[..k], []);
    assert TxBlocks(t)[..k] + [] == TxBlocks(t)[..k];
  }

  lemma {:induction false} InvKeepsLog(s: System)
    requires Inv(s)
    ensures LogOk(s.log) && LogBlocks(s.log) <= s.blocks
  {
  }

  lemma {:induction false} DieIsOverlay(blocks: seq<Block>, end: nat, t: Transaction, k: nat)
    requires end <= |blocks|
    ensures AppendBlocks(blocks, end, t, Die(k)) == Overlay(Zeroed(blocks, end), end, First(Script(t), k))
  {
  }
}
