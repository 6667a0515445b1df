/** Exactly which appends leave an archive that can be scanned, however they end. */
module ArchiveStopped {
  import opened ArchiveFormat
  import opened ArchiveLengths
  import opened Options
  import opened ArchiveLayout
  import opened ArchiveLog
  import opened ArchiveTail
  import opened ArchiveRuns
  import opened ArchiveSafety
  import opened ArchiveTorn
  import opened ArchiveLanding

  // One stopped append

  lemma {:induction false} AfterStop(s: System, e: Append)
    requires Inv(s) && Sound(s, e) && Scan(s.blocks).Ok? && !Refused(LogEntries(s.log), e.t, e.prefix)
    requires StopOf(e.t, e.fault).Some?
    ensures var k, end := StopOf(e.t, e.fault).value, |LogBlocks(s.log)|;
      && end <= |s.blocks| && LogBlocks(s.log) <= s.blocks && LogOk(s.log) && WellFormed(e.t)
      && Next(s, e).blocks == AppendBlocks(s.blocks, end, e.t, Die(k))
      && Next(s, e).log == (if |TxBlocks(e.t)| <= k then s.log + [e.t] else s.log)
      && (InBudget(e.t) || ShortOfCommit(e.t, k))
      && (InBudget(e.t) ==> Admits(e.t, LogEntries(s.log)))
  {
    WhenAdmitted(s, e);
    SoundIsAdmitted(s, e);
    InvKeepsLog(s);
    StoppedWrites(s.blocks, |LogBlocks(s.log)|, e.t, e.fault);
    hide Inv, Next, Refused, Scan, LogBlocks, LogOk, TxBlocks, WellFormed, Sound, Budgeted, StopOf, AppendBlocks,
        Admits;
  }

  lemma {:induction false} ShortIsWithin(t: Transaction, k: nat)
    requires InBudget(t) || ShortOfCommit(t, k)
    ensures !InBudget(t) ==> k <= |DataBlocks(t.id, t.members)| < |TxBlocks(t)|
  {
    hide InBudget, DataBlocks;
  }

  /** Over leftovers without headers, an append that stopped anywhere leaves an archive that scans as its
      log if and only if it recovers, by what lay in the file before the append. */
  lemma {:induction false} StoppedAppendScans(s: System, e: Append)
    requires Inv(s) && Sound(s, e) && Scan(s.blocks).Ok? && !Refused(LogEntries(s.log), e.t, e.prefix)
    requires StopOf(e.t, e.fault).Some? && NoHeaders(s.blocks, |LogBlocks(s.log)| + 2)
    ensures LogOk(Next(s, e).log) && forall t <- Next(s, e).log :: WellFormed(t)
    ensures var n := Next(s, e);
            Scan(n.blocks) == if Recovers(s.blocks, |LogBlocks(s.log)|, e.t, StopOf(e.t, e.fault).value)
                              then Ok(LogEntries(n.log), |LogBlocks(n.log)|) else ArchiveError
  {
    hide *;
    var t, k := e.t, StopOf(e.t, e.fault).value;
    AfterStop(s, e);
    LogIsWellFormed(s.log);
    if k < |TxBlocks(t)| {
      LeftoversAreForeign(s, e);
      TornAppendRecovers(s.log, t, s.blocks, k);
    } else {
      ShortIsWithin(t, k);
      CommittedScan(s.log, t, s.blocks, k);
      LogGrows(s.log, t);
      LogIsWellFormed(s.log + [t]);
    }
  }

  /** Stopped behind its commit record, the transaction is in the log; what follows it decides. */
  lemma {:induction false} CommittedScan(log: seq<Transaction>, t: Transaction, blocks: seq<Block>, k: nat)
    requires LogOk(log) && InBudget(t) && Admits(t, LogEntries(log)) && |TxBlocks(t)| <= k
    requires LogBlocks(log) <= blocks && NoHeaders(blocks, |LogBlocks(log)| + 2)
    ensures LogOk(log + [t]) && forall u <- log + [t] :: WellFormed(u)
    ensures Scan(AppendBlocks(blocks, |LogBlocks(log)|, t, Die(k)))
         == if Recovers(blocks, |LogBlocks(log)|, t, k) then Ok(LogEntries(log + [t]), |LogBlocks(log + [t])|)
            else ArchiveError
  {
    hide *;
    var end, n, grown := |LogBlocks(log)|, |TxBlocks(t)|, log + [t];
    var r := AppendBlocks(blocks, end, t, Die(k));
    LogGrows(log, t);
    LogIsWellFormed(grown);
    WholeWrites(blocks, LogBlocks(log), t, k);
    ScanLog(r, grown);
    BehindIs(grown);
    WholeRecovers(blocks, end, t, k);
    if k == n {
      DieIsOverlay(blocks, end, t, k);
      TornIs(blocks, end, t, k);
      FreeIsQuiet(blocks, LogBlocks(log), t, k, n);
      QuietWithoutHeaders(r, end + n);
    }
    EndsWithoutHeaders(r, end + n, Behind(grown));
  }

  lemma {:induction false} WholeWrites(blocks: seq<Block>, prefix: seq<Block>, t: Transaction, k: nat)
    requires prefix <= blocks && |TxBlocks(t)| <= k
    ensures var r, past := AppendBlocks(blocks, |prefix|, t, Die(k)), |prefix| + |TxBlocks(t)|;
      prefix + TxBlocks(t) <= r && (|TxBlocks(t)| < k ==> Quiet(r, past) && HeaderAvailable(r, past) != Present)
  {
    hide TxBlocks, Script;
    var z, tail := Zeroed(blocks, |prefix|), First(Footer, k - |TxBlocks(t)|);
    ZeroedBlocks(blocks, |prefix|);
    assert prefix <= z;
    hide Zeroed;
    ScriptBeyond(t, k);
    PrefixGrows(z, prefix, TxBlocks(t), tail);
    FirstZeros(k - |TxBlocks(t)|);
  }

  lemma {:induction false} WholeRecovers(blocks: seq<Block>, end: nat, t: Transaction, k: nat)
    requires InBudget(t) && WellFormed(t) && |TxBlocks(t)| <= k
    ensures Recovers(blocks, end, t, k) <==> k > |TxBlocks(t)| || Free(blocks, end, |TxBlocks(t)|)
  {
    NothingReached(t, k);
    TxLength(t);
    hide Reaches, InBudget, TxBlocks, Free, WellFormed, MainOffset, CommitBytes;
    if CutsHeader(t, k) {
      LandsOnHeader(t, k);
      MainsBound(t.members, Heads(t, k));
    }
  }

  lemma {:induction false} NothingReached(t: Transaction, k: nat)
    requires InBudget(t) && WellFormed(t)
    ensures !Reaches(t, k)
  {
    hide Oversized, InBudget, GroupOffset;
    NoneOversized(t);
  }

  lemma {:induction false} EndsWithoutHeaders(blocks: seq<Block>, pos: nat, st: ScanState)
    requires HeaderAvailable(blocks, pos) != Present
    ensures ScanFrom(blocks, pos, st) == if Quiet(blocks, pos) then Ok(st.entries, st.end) else ArchiveError
  {
  }

  /** Over any leftovers, headers included: an append that stops short of its commit, not inside an
      extended header, scans as the old index if and only if the scanner finds nothing complete and
      nothing broken where it lands. */
  lemma {:induction false} AnyLandingDecides(s: System, e: Append)
    requires Inv(s) && Sound(s, e) && Scan(s.blocks).Ok? && !Refused(LogEntries(s.log), e.t, e.prefix)
    requires StopOf(e.t, e.fault).Some?
    requires var k := StopOf(e.t, e.fault).value; k < |TxBlocks(e.t)| && !CutsHeader(e.t, k) && !Reaches(e.t, k)
    ensures var end, k, n := |LogBlocks(s.log)|, StopOf(e.t, e.fault).value, Next(s, e);
            var quiet := if CutsCommit(e.t, k) then |s.blocks| < end + |TxBlocks(e.t)|
                         else Quiet(n.blocks, end + Landing(e.t, k));
            Scan(n.blocks) == if quiet then Ok(LogEntries(s.log), end) else ArchiveError
  {
    hide *;
    var t, k, end := e.t, StopOf(e.t, e.fault).value, |LogBlocks(s.log)|;
    AfterStop(s, e);
    LogIsWellFormed(s.log);
    LeftoversAreForeign(s, e);
    DieIsOverlay(s.blocks, end, t, k);
    TornIs(s.blocks, end, t, k);
    AnyLeftoversScan(s.log, t, s.blocks, k);
  }

  /** With nothing behind the footer, only a header over the budget is in the way. */
  lemma {:induction false} CleanTailRecovers(blocks: seq<Block>, end: nat, t: Transaction, k: nat)
    requires WellFormed(t) && |blocks| <= end + 2
    ensures Recovers(blocks, end, t, k) <==> !Reaches(t, k)
  {
    TxLength(t);
    hide Reaches, TxBlocks, WellFormed, CutsCommit, Landing, CommitBytes, GroupOffset;
  }

  // Whatever way it ends

  /** What a caller can check before the append: no header over the budget, nothing in the way of any
      member, of the ustar header behind any extended header, or of the commit record. */
  predicate Recoverable(blocks: seq<Block>, end: nat, t: Transaction) {
    && (forall m <- t.members :: !Oversized(m))
    && (forall i | 0 <= i <= |t.members| :: Free(blocks, end, GroupOffset(t.members, i)))
    && (forall i | 0 <= i < |t.members| && !Fits(t.members[i]) :: Free(blocks, end, MainOffset(t.members, i)))
    && (InBudget(t) ==> |blocks| < end + |TxBlocks(t)|)
  }

  lemma {:induction false} CutRecovers(blocks: seq<Block>, end: nat, t: Transaction, k: nat)
    requires WellFormed(t) && Recoverable(blocks, end, t) && (InBudget(t) || k <= GroupOffset(t.members, |t.members|))
    ensures Recovers(blocks, end, t, k)
  {
    hide Oversized, InBudget, TxBlocks, WellFormed, GroupOffset, Fits, CutsHeader, CommitBytes, MainOffset,
        HeaderLength;
    TxLength(t);
    forall j | 0 <= j < |t.members|
      ensures !Oversized(t.members[j])
    {
      assert t.members[j] in t.members;
    }
    if CutsHeader(t, k) {
      CutIsInside(t, k);
      CutIsExtended(t, k);
    }
  }

  lemma {:induction false} CutIsExtended(t: Transaction, k: nat)
    requires CutsHeader(t, k)
    ensures Heads(t, k) < |t.members| && !Fits(t.members[Heads(t, k)])
  {
    hide GroupOffset, Fits;
    HeadedMeans(t, k, |t.members|, Heads(t, k));
    HeaderEnds(t.members[Heads(t, k)]);
  }

  lemma {:induction false} HeadsAre(t: Transaction, k: nat, i: nat)
    requires i <= |t.members| && (i > 0 ==> MainOffset(t.members, i - 1) < k)
    requires i < |t.members| ==> k <= MainOffset(t.members, i)
    ensures Heads(t, k) == i
  {
    hide MainOffset;
    if i > 0 {
      HeadedMeans(t, k, |t.members|, i - 1);
    }
    if i < |t.members| {
      HeadedMeans(t, k, |t.members|, i);
    }
  }

  lemma {:induction false} Places(t: Transaction, i: nat)
    requires i <= |t.members|
    ensures GroupOffset(t.members, i) <= GroupOffset(t.members, |t.members|)
    ensures i > 0 ==> MainOffset(t.members, i - 1) < GroupOffset(t.members, i)
    ensures i < |t.members| ==> GroupOffset(t.members, i) <= MainOffset(t.members, i)
    ensures i < |t.members| ==> MainOffset(t.members, i) < GroupOffset(t.members, |t.members|)
    ensures i < |t.members| && !Fits(t.members[i]) ==> GroupOffset(t.members, i) < MainOffset(t.members, i)
  {
    if i > 0 {
      OffsetsGrow(t.members, i - 1, i);
      HeaderEnds(t.members[i - 1]);
    }
    if i < |t.members| {
      OffsetsGrow(t.members, i, |t.members|);
      HeaderEnds(t.members[i]);
    }
  }

  /** The cut at a member's place lands there. */
  lemma {:induction false} CutAtPlace(blocks: seq<Block>, end: nat, t: Transaction, i: nat)
    requires WellFormed(t) && i <= |t.members| && Recovers(blocks, end, t, GroupOffset(t.members, i))
    ensures Free(blocks, end, GroupOffset(t.members, i))
  {
    hide GroupOffset, MainOffset, TxBlocks, Reaches, WellFormed, Heads, CommitBytes, Free;
    TxLength(t);
    Places(t, i);
    HeadsAre(t, GroupOffset(t.members, i), i);
  }

  /** The cut behind the first block of an extended header lands on the ustar header. */
  lemma {:induction false} CutAtExtended(blocks: seq<Block>, end: nat, t: Transaction, i: nat)
    requires WellFormed(t) && i < |t.members| && Recovers(blocks, end, t, GroupOffset(t.members, i) + 1)
    ensures !Oversized(t.members[i])
    ensures !Fits(t.members[i]) ==> Free(blocks, end, MainOffset(t.members, i))
  {
    hide GroupOffset, MainOffset, TxBlocks, WellFormed, Heads, CommitBytes, Free, Oversized, Fits;
    TxLength(t);
    Places(t, i);
    if !Fits(t.members[i]) {
      HeadsAre(t, GroupOffset(t.members, i) + 1, i);
    }
  }

  /** The cut behind the header of the commit record. */
  lemma {:induction false} CutAtRecord(blocks: seq<Block>, end: nat, t: Transaction)
    requires WellFormed(t) && Recovers(blocks, end, t, GroupOffset(t.members, |t.members|) + 1)
    ensures |blocks| < end + |TxBlocks(t)|
  {
    hide GroupOffset, TxBlocks, WellFormed, Reaches, Free, Landing;
    TxLength(t);
    RecordHasBlocks(t);
  }

  lemma {:induction false} RecordHasBlocks(t: Transaction)
    ensures Units(CommitBytes(t)) >= 1
  {
    hide CommitBytes;
  }

  lemma {:induction false} EveryCutIsRecoverable(blocks: seq<Block>, end: nat, t: Transaction)
    requires WellFormed(t)
    requires forall k: nat | InBudget(t) || k <= GroupOffset(t.members, |t.members|) :: Recovers(blocks, end, t, k)
    ensures Recoverable(blocks, end, t)
  {
    hide Recovers, GroupOffset, MainOffset, TxBlocks, WellFormed, InBudget, Free, Oversized, Fits;
    forall i | 0 <= i <= |t.members|
      ensures Free(blocks, end, GroupOffset(t.members, i))
    {
      Places(t, i);
      CutAtPlace(blocks, end, t, i);
    }
    forall i | 0 <= i < |t.members|
      ensures !Oversized(t.members[i]) && (!Fits(t.members[i]) ==> Free(blocks, end, MainOffset(t.members, i)))
    {
      Places(t, i);
      CutAtExtended(blocks, end, t, i);
    }
    if InBudget(t) {
      CutAtRecord(blocks, end, t);
    }
  }

  /** An append that does not stop with its blocks in place: it completes, or a zero block is back. */
  lemma {:induction false} OtherEndingScans(s: System, e: Append)
    requires Inv(s) && Sound(s, e) && Scan(s.blocks).Ok? && !Refused(LogEntries(s.log), e.t, e.prefix)
    requires StopOf(e.t, e.fault).None? && !Budgeted(e.t, e.fault).NoFault?
    ensures Scan(Next(s, e).blocks).Ok?
  {
    hide *;
    var end, r := |LogBlocks(s.log)|, Next(s, e).blocks;
    InvKeepsLog(s);
    WhenAdmitted(s, e);
    LogIsWellFormed(s.log);
    NotStopped(e.t, e.fault);
    OtherBlocks(s, e.t, Budgeted(e.t, e.fault), LogBlocks(s.log));
    NextBlocks(s, e);
    if r != s.blocks {
      ScanLog(r, s.log);
      StopsAtZero(r, s.log);
    }
  }

  /** The last thing such an append writes is a zero block at the committed end, if anything. */
  predicate ZeroesLast(fault: Fault) {
    fault.Before? || (fault.Raise? && fault.z > 0)
  }

  lemma {:induction false} NotStopped(t: Transaction, fault: Fault)
    requires StopOf(t, fault).None? && !Budgeted(t, fault).NoFault?
    ensures ZeroesLast(Budgeted(t, fault))
  {
    hide Budgeted;
  }

  lemma {:induction false} NextBlocks(s: System, e: Append)
    requires |LogBlocks(s.log)| <= |s.blocks|
    requires Next(s, e) == Written(s, |LogBlocks(s.log)|, e.t, Budgeted(e.t, e.fault))
    ensures Next(s, e).blocks == AppendBlocks(s.blocks, |LogBlocks(s.log)|, e.t, Budgeted(e.t, e.fault))
  {
    hide Next, AppendBlocks, LogBlocks, Budgeted;
  }

  lemma {:induction false} OtherBlocks(s: System, t: Transaction, fault: Fault, prefix: seq<Block>)
    requires prefix <= s.blocks
    requires ZeroesLast(fault)
    ensures var r := AppendBlocks(s.blocks, |prefix|, t, fault);
      r == s.blocks || (prefix <= r && |prefix| < |r| && r[|prefix|] == Zero)
  {
    hide Script, Zeroed;
    ZeroedBlocks(s.blocks, |prefix|);
    assert fault.Before? && fault.z == 0 ==> Overlay(s.blocks, |prefix|, []) == s.blocks;
  }

  /** A completed append writes what one does that stops behind the new footer. */
  lemma {:induction false} CompletedIsStopped(s: System, e: Append)
    requires Inv(s) && Sound(s, e) && Scan(s.blocks).Ok? && !Refused(LogEntries(s.log), e.t, e.prefix)
    requires Budgeted(e.t, e.fault).NoFault?
    ensures var k := |TxBlocks(e.t)| + 2;
      && InBudget(e.t) && StopOf(e.t, Die(k)) == Some(k)
      && Next(s, e).blocks == Next(s, e.(fault := Die(k))).blocks
  {
    hide *;
    var k := |TxBlocks(e.t)| + 2;
    SameAppend(s, e, Die(k));
    WhenAdmitted(s, e);
    WhenAdmitted(s, e.(fault := Die(k)));
    NotFailing(e.t, e.fault, k);
    NextBlocks(s, e);
    NextBlocks(s, e.(fault := Die(k)));
    WholeScript(s.blocks, |LogBlocks(s.log)|, e.t);
  }

  lemma {:induction false} NotFailing(t: Transaction, fault: Fault, k: nat)
    requires Budgeted(t, fault).NoFault?
    ensures InBudget(t) && Budgeted(t, Die(k)) == Die(k) && StopOf(t, Die(k)) == Some(k)
  {
    hide InBudget, DataBlocks;
  }

  lemma {:induction false} WholeScript(blocks: seq<Block>, end: nat, t: Transaction)
    requires end <= |blocks|
    ensures AppendBlocks(blocks, end, t, Die(|TxBlocks(t)| + 2)) == AppendBlocks(blocks, end, t, NoFault)
  {
    hide TxBlocks, Zeroed;
    assert First(Script(t), |TxBlocks(t)| + 2) == Script(t);
  }

  lemma {:induction false} SameAppend(s: System, e: Append, fault: Fault)
    requires Sound(s, e)
    ensures Sound(s, e.(fault := fault)) && e.(fault := fault).t == e.t && e.(fault := fault).prefix == e.prefix
  {
  }

  lemma {:induction false} EndingScans(s: System, e: Append)
    requires Inv(s) && Sound(s, e) && Scan(s.blocks).Ok? && !Refused(LogEntries(s.log), e.t, e.prefix)
    requires NoHeaders(s.blocks, |LogBlocks(s.log)| + 2) && Recoverable(s.blocks, |LogBlocks(s.log)|, e.t)
    ensures Scan(Next(s, e).blocks).Ok?
  {
    hide *;
    SoundIsAdmitted(s, e);
    if Budgeted(e.t, e.fault).NoFault? {
      var k := |TxBlocks(e.t)| + 2;
      CompletedIsStopped(s, e);
      SameAppend(s, e, Die(k));
      CutRecovers(s.blocks, |LogBlocks(s.log)|, e.t, k);
      StoppedAppendScans(s, e.(fault := Die(k)));
    } else if StopOf(e.t, e.fault).None? {
      OtherEndingScans(s, e);
    } else {
      AfterStop(s, e);
      ShortIsWithin(e.t, StopOf(e.t, e.fault).value);
      DataLength(e.t.id, e.t.members);
      CutRecovers(s.blocks, |LogBlocks(s.log)|, e.t, StopOf(e.t, e.fault).value);
      StoppedAppendScans(s, e);
    }
  }

  lemma {:induction false} DieStops(t: Transaction, k: nat)
    requires InBudget(t) || k <= GroupOffset(t.members, |t.members|)
    ensures StopOf(t, Die(k)) == Some(k)
  {
    DataLength(t.id, t.members);
    hide InBudget, DataBlocks, GroupOffset;
  }

  /** The exact condition, to be checked before an append over leftovers without headers: the archive can be
      scanned afterwards whatever way the append ends, if and only if it is recoverable. */
  lemma {:induction false} EveryEndingScans(s: System, e: Append)
    requires Inv(s) && Sound(s, e) && Scan(s.blocks).Ok? && !Refused(LogEntries(s.log), e.t, e.prefix)
    requires NoHeaders(s.blocks, |LogBlocks(s.log)| + 2)
    ensures (forall fault :: Scan(Next(s, e.(fault := fault)).blocks).Ok?)
        <==> Recoverable(s.blocks, |LogBlocks(s.log)|, e.t)
  {
    hide *;
    var t, end := e.t, |LogBlocks(s.log)|;
    SoundIsAdmitted(s, e);
    if Recoverable(s.blocks, end, t) {
      forall fault
        ensures Scan(Next(s, e.(fault := fault)).blocks).Ok?
      {
        SameAppend(s, e, fault);
        EndingScans(s, e.(fault := fault));
      }
    }
    if forall fault :: Scan(Next(s, e.(fault := fault)).blocks).Ok? {
      forall k: nat | InBudget(t) || k <= GroupOffset(t.members, |t.members|)
        ensures Recovers(s.blocks, end, t, k)
      {
        SameAppend(s, e, Die(k));
        DieStops(t, k);
        StoppedAppendScans(s, e.(fault := Die(k)));
      }
      EveryCutIsRecoverable(s.blocks, end, t);
    }
  }

  // Payload that was rolled back

  /** What rolling back leaves of one member's append: two zero blocks, and the payload behind them. */
  lemma {:induction false} PayloadLeft(t: Transaction, j: nat)
    requires |t.members| == 1 && WellFormedMember(t.members[0]) && Fits(t.members[0])
    requires 2 <= j <= 1 + |t.members[0].content|
    ensures var r := AppendBlocks([], 0, t, Raise(j, 2));
      && |r| == j && r[0] == Zero && NoHeaders(r, 0)
      && forall q | 2 <= q < j :: r[q] == if t.members[0].content[q - 1] == 0 then Zero
          else Raw(t.members[0].content[q - 1])
    ensures Budgeted(t, Raise(j, 2)) == Raise(j, 2)
  {
    var m := t.members[0];
    OneMember(t);
    hide TxBlocks, DataBlocks, Payload, InBudget;
    ScriptWithin(t, j);
    hide Script, First;
    WholeFooter();
    ZeroedBlocks([], 0);
    hide Zeroed;
    var r := AppendBlocks([], 0, t, Raise(j, 2));
    assert forall q | 2 <= q < j :: r[q] == TxBlocks(t)[q];
  }

  lemma {:induction false} OneMember(t: Transaction)
    requires |t.members| == 1 && Fits(t.members[0])
    ensures var m := t.members[0];
      && |DataBlocks(t.id, t.members)| == 1 + |m.content| < |TxBlocks(t)|
      && forall q | 1 <= q < 1 + |m.content| ::
           TxBlocks(t)[q] == if m.content[q - 1] == 0 then Zero else Raw(m.content[q - 1])
  {
    hide RecordBlocks, CommitBytes;
    assert t.members[1..] == [];
    assert DataBlocks(t.id, t.members) == MemberBlocks(t.id, t.members[0]);
  }

  lemma {:induction false} OneIsAdmitted(t: Transaction)
    requires |t.members| == 1 && WellFormedMember(t.members[0]) && Fits(t.members[0])
    ensures WellFormed(t) && !Refused(map[], t, None) && SignsFirstHeader(t)
    ensures GroupOffset(t.members, 0) == 0 && GroupOffset(t.members, 1) == 1 + |t.members[0].content|
    ensures MainOffset(t.members, 0) == 0
  {
    assert t.members == [t.members[0]] && t.members[1..] == [];
    hide WellFormedMember, NameFits;
    forall name, other | name in (set m <- t.members :: m.name) && other in (set m <- t.members :: m.name)
      ensures !Under(other, name) && !Under(name, other)
    {
      NotUnderItself(name);
    }
  }

  lemma {:induction false} NotUnderItself(name: string)
    ensures !Under(name, name)
  {
    assert |name + "/"| > |name|;
  }

  /** The first append of the run: rolled back, it leaves its payload. */
  lemma {:induction false} PayloadStays(t: Transaction, j: nat)
    requires |t.members| == 1 && WellFormedMember(t.members[0]) && Fits(t.members[0])
    requires 2 <= j <= 1 + |t.members[0].content|
    ensures var e := Append(t, None, Raise(j, 2));
            var s := Next(Empty, e);
      && Legal(Empty, e) && Inv(s) && s == System(AppendBlocks([], 0, t, Raise(j, 2)), [], [Attempt(0, t)])
      && Scan(s.blocks) == Ok(map[], 0)
  {
    hide *;
    var e := Append(t, None, Raise(j, 2));
    OneIsAdmitted(t);
    PayloadLeft(t, j);
    EmptyInv();
    EmptyScan();
    FirstIsLegal(e);
    AppendKeeps(Empty, e);
    FirstWrites(e);
    ZeroScans(AppendBlocks([], 0, t, Raise(j, 2)));
  }

  lemma {:induction false} EmptyScan()
    ensures Scan([]) == Ok(map[], 0) && LogBlocks([]) == [] && LogEntries([]) == map[]
  {
  }

  lemma {:induction false} FirstIsLegal(e: Append)
    requires WellFormed(e.t) && SignsFirstHeader(e.t)
    ensures Legal(Empty, e)
  {
    hide WellFormedMember, SignsFirstHeader, InBudget;
  }

  lemma {:induction false} FirstWrites(e: Append)
    requires Scan([]) == Ok(map[], 0) && !Refused(map[], e.t, e.prefix)
    requires Budgeted(e.t, e.fault) == e.fault && e.fault.Raise? && e.fault.z == 2
    ensures Next(Empty, e) == System(AppendBlocks([], 0, e.t, e.fault), [], [Attempt(0, e.t)])
  {
    hide Scan, Refused, Budgeted, AppendBlocks, TxBlocks;
  }

  lemma {:induction false} ZeroScans(blocks: seq<Block>)
    requires blocks != [] && blocks[0] == Zero
    ensures Scan(blocks) == Ok(map[], 0)
  {
  }

  /** The failing run: a member is rolled back, which leaves its payload behind two zero blocks; a smaller one
      is then written over it and its append dies. No header is over the budget and none is stale, and yet the
      archive is locked for good, whatever the sizes, as long as the scanner lands on payload. */
  lemma {:induction false} PayloadLocksForGood(t: Transaction, j: nat, u: Transaction, k: nat, later: seq<Append>)
    requires |t.members| == 1 && WellFormedMember(t.members[0]) && Fits(t.members[0])
    requires |u.members| == 1 && WellFormedMember(u.members[0]) && Fits(u.members[0]) && t.id != u.id
    requires |u.members[0].content| + 2 <= j <= 1 + |t.members[0].content|
    requires t.members[0].content[|u.members[0].content|] != 0
    requires 1 <= k <= |u.members[0].content|
    ensures var failed, torn := Append(t, None, Raise(j, 2)), Append(u, None, Die(k));
            var s := Run(Empty, [failed, torn]);
      && LegalRun(Empty, [failed, torn]) && NoHeaders(Run(Empty, [failed]).blocks, 0) && !Locks(u, Die(k))
      && s.log == [] && Scan(s.blocks) == ArchiveError && Run(s, later) == s
  {
    hide *;
    var failed, torn := Append(t, None, Raise(j, 2)), Append(u, None, Die(k));
    var s := Next(Empty, failed);
    PayloadStays(t, j);
    PayloadLeft(t, j);
    OneIsAdmitted(u);
    EmptyScan();
    TornIsLegal(s, torn, t);
    RunOfBoth(failed, torn);
    DieStops(u, k);
    NotRecovered(s.blocks, u, k);
    NoHeadersFrom(s.blocks, 0, 2);
    StoppedAppendScans(s, torn);
    AfterStop(s, torn);
    TxLength(u);
    LockedStays(Next(s, torn), later);
  }

  lemma {:induction false} TornIsLegal(s: System, e: Append, t: Transaction)
    requires s.log == [] && s.attempts == [Attempt(0, t)] && t.id != e.t.id
    requires WellFormed(e.t) && SignsFirstHeader(e.t)
    ensures Legal(s, e) && Sound(s, e)
  {
    hide WellFormedMember, SignsFirstHeader, InBudget;
  }

  lemma {:induction false} RunOfBoth(e: Append, f: Append)
    ensures Run(Empty, [e]) == Next(Empty, e) && Run(Empty, [e, f]) == Next(Next(Empty, e), f)
    ensures LegalRun(Empty, [e, f]) <==> Legal(Empty, e) && Legal(Next(Empty, e), f)
  {
    hide Next, Legal;
    assert [e, f][..1] == [e] && [e][..0] == [];
    assert Run(Empty, [e]) == Next(Run(Empty, []), e) && LegalRun(Empty, [e]) == Legal(Empty, e);
    assert Run(Empty, [e, f]) == Next(Run(Empty, [e]), f);
    assert LegalRun(Empty, [e, f]) == (LegalRun(Empty, [e]) && Legal(Run(Empty, [e]), f));
  }

  /** The scanner lands where the smaller member ends. */
  lemma {:induction false} NotRecovered(blocks: seq<Block>, u: Transaction, k: nat)
    requires |u.members| == 1 && WellFormed(u) && Fits(u.members[0]) && 1 <= k <= |u.members[0].content|
    requires GroupOffset(u.members, 1) == 1 + |u.members[0].content| && MainOffset(u.members, 0) == 0
    requires |u.members[0].content| + 1 < |blocks| && blocks[|u.members[0].content| + 1] != Zero
    ensures !Recovers(blocks, 0, u, k) && !Locks(u, Die(k))
  {
    hide TxBlocks, GroupOffset, MainOffset, Heads, CommitBytes, WellFormed, Fits;
    TxLength(u);
    HeadsAre(u, k, 1);
    DieStops(u, k);
    hide StopOf;
    assert !Reaches(u, k) by {
      FitsIsInside(u.members[0]);
    }
  }

  lemma {:induction false} FitsIsInside(m: Member)
    requires Fits(m)
    ensures !Oversized(m)
  {
  }
}
