/** Crash safety of the archive over whole runs. */
module ArchiveRuns {
  // An append zeroes the footer at the committed end, writes its transaction over it block by block, and
  // on an exception rewrites two zero blocks at the old end. Any of these writes can be the last one.

  import opened ArchiveFormat
  import opened Options
  import opened ArchiveLayout
  import opened ArchiveLog
  import opened ArchiveTail
  import opened ArchiveCrash

  /** How an append ends: `Before` stops while zeroing the footer, `Die` stops after `k`
      blocks of the transaction, `Raise` also rewrites `z` of the two zero blocks. */
  datatype Fault = NoFault | Before(z: nat) | Raise(k: nat, z: nat) | Die(k: nat)

  const Footer: seq<Block> := [Zero, Zero]

  function Overlay(blocks: seq<Block>, pos: nat, bs: seq<Block>): (r: seq<Block>)
    requires pos <= |blocks|
    ensures |r| == if pos + |bs| <= |blocks| then |blocks| else pos + |bs|
    ensures forall q | 0 <= q < |r| :: r[q] == if pos <= q < pos + |bs| then bs[q - pos] else blocks[q]
  {
    blocks[..pos] + bs + (if pos + |bs| <= |blocks| then blocks[pos + |bs|..] else [])
  }

  function First(bs: seq<Block>, k: nat): seq<Block> {
    bs[..if k <= |bs| then k else |bs|]
  }

  function Script(t: Transaction): seq<Block> {
    TxBlocks(t) + Footer
  }

  function Zeroed(blocks: seq<Block>, end: nat): seq<Block>
    requires end <= |blocks|
  {
    if At(blocks, end, Footer) then blocks else Overlay(blocks, end, Footer)
  }

  function AppendBlocks(blocks: seq<Block>, end: nat, t: Transaction, fault: Fault): seq<Block>
    requires end <= |blocks|
  {
    match fault
    case NoFault => Overlay(Zeroed(blocks, end), end, Script(t))
    case Before(z) => if At(blocks, end, Footer) then blocks else Overlay(blocks, end, First(Footer, z))
    case Die(k) => Overlay(Zeroed(blocks, end), end, First(Script(t), k))
    case Raise(k, z) => Overlay(Overlay(Zeroed(blocks, end), end, First(Script(t), k)), end, First(Footer, z))
  }

  /** The commit record is in the file, whole, when the append is over. */
  predicate Commits(t: Transaction, fault: Fault) {
    match fault
    case NoFault => true
    case Before(_) => false
    case Die(k) => |TxBlocks(t)| <= k
    case Raise(k, z) => |TxBlocks(t)| <= k && z == 0
  }

  // ----- admission -----

  predicate Under(directory: string, name: string) {
    directory + "/" <= name
  }

  /** The reasons to refuse an append before anything is written. */
  predicate Refused(entries: map<string, Entry>, t: Transaction, prefix: Option<string>) {
    var names := set m <- t.members :: m.name;
    || t.members == []
    || (exists i, j | 0 <= i < j < |t.members| :: t.members[i].name == t.members[j].name)
    || (prefix.Some? && exists name <- entries :: name == prefix.value || Under(prefix.value, name))
    || (!t.replace && exists name <- names :: name in entries)
    || (exists name <- names, other <- entries.Keys + names :: Under(other, name) || Under(name, other))
  }

  /** A commit record over the metadata budget fails after the data is written. */
  function Budgeted(t: Transaction, fault: Fault): Fault {
    if InBudget(t) then fault
    else
      var n := |DataBlocks(t.id, t.members)|;
      match fault
      case NoFault => Raise(n, 2)
      case Before(z) => fault
      case Die(k) => if k <= n then fault else Raise(n, 2)
      case Raise(k, z) => Raise(if k < n then k else n, z)
  }

  // ----- runs -----

  /** The file, with two ghosts beside it: what has committed, and every attempt that has not. */
  datatype System = System(blocks: seq<Block>, log: seq<Transaction>, attempts: seq<Attempt>)

  datatype Append = Append(t: Transaction, prefix: Option<string>, fault: Fault)

  const Empty := System([], [], [])

  function Written(s: System, end: nat, t: Transaction, fault: Fault): System
    requires end <= |s.blocks|
  {
    var blocks := AppendBlocks(s.blocks, end, t, fault);
    if fault.Before? then s.(blocks := blocks)
    else if Commits(t, fault) then System(blocks, s.log + [t], s.attempts)
    else System(blocks, s.log, s.attempts + [Attempt(end, t)])
  }

  function Next(s: System, e: Append): System {
    match Scan(s.blocks)
    case ArchiveError => s
    case Ok(entries, end) =>
      if Refused(entries, e.t, e.prefix) || end > |s.blocks| then s
      else Written(s, end, e.t, Budgeted(e.t, e.fault))
  }

  function Run(s: System, es: seq<Append>): System {
    if es == [] then s else Next(Run(s, es[..|es| - 1]), es[|es| - 1])
  }

  /** Sources are sound, and the transaction id was never used before. */
  predicate Sound(s: System, e: Append) {
    && (forall m <- e.t.members :: WellFormedMember(m))
    && (forall t <- s.log :: t.id != e.t.id)
    && (forall a <- s.attempts :: a.t.id != e.t.id)
  }

  predicate Legal(s: System, e: Append) {
    Sound(s, e) && (InBudget(e.t) ==> SignsFirstHeader(e.t))
  }

  predicate LegalRun(s: System, es: seq<Append>) {
    es != [] ==> LegalRun(s, es[..|es| - 1]) && Legal(Run(s, es[..|es| - 1]), es[|es| - 1])
  }

  /** Every attempt that could have committed signed its first header. */
  ghost predicate Signed(attempts: seq<Attempt>) {
    forall a <- attempts :: InBudget(a.t) ==> SignsFirstHeader(a.t)
  }

  predicate Stopped(blocks: seq<Block>, end: nat) {
    end < |blocks| ==> blocks[end] == Zero
  }

  ghost predicate Inv(s: System) {
    var end := |LogBlocks(s.log)|;
    && LogOk(s.log)
    && LogBlocks(s.log) <= s.blocks
    && Leftovers(s.blocks, end, s.attempts)
    && Distinct(s.attempts)
    && Signed(s.attempts)
    && (forall a <- s.attempts :: a.start + 3 <= end || a.start == end)
    && (Stopped(s.blocks, end) || Doomed(s.blocks, end, s.attempts))
  }

  /** In every such state a scan returns the fold of the committed transactions, or fails;
      with a zero block at the committed end it cannot fail. */
  lemma {:induction false} ScanIsExact(s: System)
    requires Inv(s)
    ensures Scan(s.blocks) == ArchiveError || Scan(s.blocks) == Ok(LogEntries(s.log), |LogBlocks(s.log)|)
    ensures Stopped(s.blocks, |LogBlocks(s.log)|) ==> Scan(s.blocks) == Ok(LogEntries(s.log), |LogBlocks(s.log)|)
  {
    var end := |LogBlocks(s.log)|;
    ScanLog(s.blocks, s.log);
    if !Stopped(s.blocks, end) {
      hide ScanFrom, Scan, LogOk, LogBlocks, LogEntries;
      LeftoversPublishNothing(s.blocks, end, s.attempts, end, Behind(s.log));
    }
  }

  // ----- one append -----

  lemma {:induction false} KeepsPrefix(blocks: seq<Block>, pos: nat, bs: seq<Block>, prefix: seq<Block>)
    requires prefix <= blocks && |prefix| == pos
    ensures prefix <= Overlay(blocks, pos, bs)
  {
    assert Overlay(blocks, pos, bs)[..pos] == blocks[..pos];
  }

  lemma {:induction false} KeepsLeftovers(blocks: seq<Block>, end: nat, attempts: seq<Attempt>, bs: seq<Block>,
        a: Attempt)
    requires Leftovers(blocks, end, attempts) && end <= |blocks| && a.start == end
    requires forall i | 0 <= i < |bs| :: bs[i] == Zero || (i < Length(a) && bs[i] == TxBlocks(a.t)[i])
    ensures Leftovers(Overlay(blocks, end, bs), end, attempts + [a])
  {
    var r := Overlay(blocks, end, bs);
    forall q | end <= q < |r|
      ensures r[q] == Zero || exists b <- attempts + [a] :: Holds(r, q, b)
    {
      if q < end + |bs| {
        assert a in attempts + [a];
      } else if blocks[q] != Zero {
        var b :| b in attempts && Holds(blocks, q, b);
        assert Holds(r, q, b) && b in attempts + [a];
      }
    }
  }

  /** Stopped after `k` blocks, short of its commit record, the attempt has not finished. */
  predicate ShortOfCommit(t: Transaction, k: nat) {
    if InBudget(t) then k < |TxBlocks(t)| else k <= |DataBlocks(t.id, t.members)|
  }

  /** A partly written transaction is unfinished, and has beheaded every older attempt. */
  lemma {:induction false} PartlyWritten(blocks: seq<Block>, end: nat, attempts: seq<Attempt>, a: Attempt, k: nat)
    requires Leftovers(blocks, end, attempts) && Distinct(attempts + [a]) && a.start == end
    requires WellFormed(a.t) && At(blocks, end, Footer) && ShortOfCommit(a.t, k) && Signed(attempts + [a])
    requires forall b <- attempts :: b.start + 3 <= end || b.start == end
    ensures k <= |TxBlocks(a.t)|
    ensures Doomed(Overlay(blocks, end, TxBlocks(a.t)[..k]), end, attempts + [a])
  {
    hide Unfinished, Distinct, Leftovers, Beheaded, TxBlocks, WellFormed, Signed, ShortOfCommit, Overlay;
    NewUnfinished(blocks, end, attempts, a, k);
    var r := Overlay(blocks, end, TxBlocks(a.t)[..k]);
    forall b | b in attempts + [a]
      ensures Unfinished(r, b) || Beheaded(r, end, b)
    {
      if b in attempts {
        OlderDoomed(blocks, end, attempts, a, k, b);
      }
    }
  }

  lemma {:induction false} NewUnfinished(blocks: seq<Block>, end: nat, attempts: seq<Attempt>, a: Attempt, k: nat)
    requires Leftovers(blocks, end, attempts) && Distinct(attempts + [a]) && a.start == end
    requires WellFormed(a.t) && At(blocks, end, Footer) && ShortOfCommit(a.t, k)
    ensures k <= |TxBlocks(a.t)| && Unfinished(Overlay(blocks, end, TxBlocks(a.t)[..k]), a)
  {
    hide Distinct, Leftovers, TxBlocks, WellFormed;
    NotYetThere(blocks, end, attempts, a);
  }

  lemma {:induction false} OlderDoomed(blocks: seq<Block>, end: nat, attempts: seq<Attempt>, a: Attempt, k: nat,
        b: Attempt)
    requires Distinct(attempts + [a]) && Signed(attempts + [a]) && b in attempts && k <= |TxBlocks(a.t)|
    requires WellFormed(a.t) && At(blocks, end, Footer) && (b.start + 3 <= end || b.start == end)
    ensures var r := Overlay(blocks, end, TxBlocks(a.t)[..k]); Unfinished(r, b) || Beheaded(r, end, b)
  {
    hide Distinct, Headless, TxBlocks, WellFormed, At, Overlay, Holds, SignsFirstHeader, InBudget;
    assert b in attempts + [a];
    if b.start == end && InBudget(b.t) {
      OtherId(attempts, a, b);
      HeadOverwritten(blocks, end, a.t, b, k);
    }
  }

  /** Over a zeroed footer, the first blocks of one transaction are not those of another. */
  lemma {:induction false} HeadOverwritten(blocks: seq<Block>, end: nat, t: Transaction, b: Attempt, k: nat)
    requires WellFormed(t) && At(blocks, end, Footer) && k <= |TxBlocks(t)| && b.start == end && b.t.id != t.id
    requires SignsFirstHeader(b.t)
    ensures Headless(Overlay(blocks, end, TxBlocks(t)[..k]), b)
  {
    assert blocks[end] == blocks[end..end + 2][0] && blocks[end + 1] == blocks[end..end + 2][1];
    BlockAt(t, 0);
    TxLength(t);
    SecondBlock(t);
    hide TxBlocks, WellFormed, SignsFirstHeader;
  }

  lemma {:induction false} OtherId(attempts: seq<Attempt>, a: Attempt, b: Attempt)
    requires Distinct(attempts + [a]) && b in attempts
    ensures a.t.id != b.t.id
  {
    var i :| 0 <= i < |attempts| && attempts[i] == b;
    assert (attempts + [a])[i] == b && (attempts + [a])[|attempts|] == a;
  }

  lemma {:induction false} SecondBlock(t: Transaction)
    requires WellFormed(t) && |TxBlocks(t)| >= 3
    ensures TxBlocks(t)[1].Pax? && TxBlocks(t)[1].path.Some? ==> TxBlocks(t)[1].path.value.txn == t.id
  {
    BlockAt(t, 1);
    var b := TxBlocks(t)[1];
    if b.Pax? {
      hide TxBlocks;
      var j :| 0 <= j < |t.members| && !Fits(t.members[j]) && 1 == GroupOffset(t.members, j) + 1 + b.part
               && b.path == PathRecord(t.id, t.members[j].name);
    }
  }

  /** Before the transaction is written out, its last block cannot be in the file. */
  lemma {:induction false} NotYetThere(blocks: seq<Block>, end: nat, attempts: seq<Attempt>, a: Attempt)
    requires Leftovers(blocks, end, attempts) && Distinct(attempts + [a]) && a.start == end && WellFormed(a.t)
    ensures |TxBlocks(a.t)| >= 3 && |DataBlocks(a.t.id, a.t.members)| <= |TxBlocks(a.t)|
    ensures InBudget(a.t) ==> !Holds(blocks, end + Length(a) - 1, a)
  {
    TxLength(a.t);
    DataLength(a.t.id, a.t.members);
    var last := end + Length(a) - 1;
    if InBudget(a.t) && Holds(blocks, last, a) {
      assert blocks[last] == CommitBlocks(a.t)[|CommitBlocks(a.t)| - 1];
      assert a in attempts + [a];
      var b := Origin(blocks, last, end, attempts);
      OtherId(attempts, a, b);
    }
  }

  lemma {:induction false} ZerosLeave(blocks: seq<Block>, end: nat, zeros: seq<Block>, attempts: seq<Attempt>)
    requires Leftovers(blocks, end, attempts) && end <= |blocks|
    requires forall i | 0 <= i < |zeros| :: zeros[i] == Zero
    ensures Leftovers(Overlay(blocks, end, zeros), end, attempts)
  {
    hide Length, TxBlocks;
    var r := Overlay(blocks, end, zeros);
    forall q | end <= q < |r| && r[q] != Zero
      ensures exists b <- attempts :: Holds(r, q, b)
    {
      var b :| b in attempts && Holds(blocks, q, b);
      assert Holds(r, q, b);
    }
  }

  /** Zeroing the footer, even in part, keeps the invariant and stops the scanner there. */
  lemma {:induction false} ZeroingKeeps(s: System, zeros: seq<Block>)
    requires Inv(s) && forall i | 0 <= i < |zeros| :: zeros[i] == Zero
    requires zeros != [] || Stopped(s.blocks, |LogBlocks(s.log)|)
    ensures Inv(s.(blocks := Overlay(s.blocks, |LogBlocks(s.log)|, zeros)))
    ensures Stopped(Overlay(s.blocks, |LogBlocks(s.log)|, zeros), |LogBlocks(s.log)|)
  {
    hide LogOk, LogBlocks, Distinct, Signed, Leftovers, Doomed;
    var end := |LogBlocks(s.log)|;
    KeepsPrefix(s.blocks, end, zeros, LogBlocks(s.log));
    ZerosLeave(s.blocks, end, zeros, s.attempts);
  }

  lemma {:induction false} FooterZeroed(s: System)
    requires Inv(s)
    ensures var end := |LogBlocks(s.log)|;
            Inv(s.(blocks := Zeroed(s.blocks, end))) && At(Zeroed(s.blocks, end), end, Footer)
  {
    var end := |LogBlocks(s.log)|;
    if !At(s.blocks, end, Footer) {
      ZeroingKeeps(s, Footer);
      assert Overlay(s.blocks, end, Footer)[end..end + 2] == Footer;
    }
  }

  /** An attempt that has written `k` blocks and not committed joins the leftovers. */
  lemma {:induction false} PartialKeeps(s: System, t: Transaction, k: nat)
    requires Inv(s) && At(s.blocks, |LogBlocks(s.log)|, Footer)
    requires WellFormed(t) && (InBudget(t) ==> SignsFirstHeader(t)) && ShortOfCommit(t, k)
    requires forall b <- s.attempts :: b.t.id != t.id
    ensures var end, a := |LogBlocks(s.log)|, Attempt(|LogBlocks(s.log)|, t);
            Inv(System(Overlay(s.blocks, end, First(Script(t), k)), s.log, s.attempts + [a]))
  {
    var end, a := |LogBlocks(s.log)|, Attempt(|LogBlocks(s.log)|, t);
    DistinctGrows(s.attempts, a);
    SignedGrows(s.attempts, a);
    WithinScript(t, k);
    hide LogBlocks, LogOk, TxBlocks, DataBlocks, WellFormed, Distinct, Signed, SignsFirstHeader, Leftovers, Doomed;
    KeepsPrefix(s.blocks, end, TxBlocks(t)[..k], LogBlocks(s.log));
    KeepsLeftovers(s.blocks, end, s.attempts, TxBlocks(t)[..k], a);
    PartlyWritten(s.blocks, end, s.attempts, a, k);
  }

  lemma {:induction false} WithinScript(t: Transaction, k: nat)
    requires ShortOfCommit(t, k)
    ensures k <= |TxBlocks(t)| && First(Script(t), k) == TxBlocks(t)[..k]
    ensures forall start: nat :: k <= Length(Attempt(start, t))
  {
    hide DataBlocks, CommitBlocks;
  }

  lemma {:induction false} DistinctGrows(attempts: seq<Attempt>, a: Attempt)
    requires Distinct(attempts) && WellFormed(a.t) && forall b <- attempts :: b.t.id != a.t.id
    ensures Distinct(attempts + [a])
  {
    hide WellFormed;
    assert forall b <- attempts + [a] :: b in attempts || b == a;
  }

  lemma {:induction false} SignedGrows(attempts: seq<Attempt>, a: Attempt)
    requires Signed(attempts) && (InBudget(a.t) ==> SignsFirstHeader(a.t))
    ensures Signed(attempts + [a])
  {
    hide SignsFirstHeader, InBudget;
  }

  lemma {:induction false} LeftoverOnce(blocks: seq<Block>, end: nat, attempts: seq<Attempt>, a: Attempt)
    requires Leftovers(blocks, end, attempts + [a] + [a])
    ensures Leftovers(blocks, end, attempts + [a])
  {
    forall q | end <= q < |blocks| && blocks[q] != Zero
      ensures exists b <- attempts + [a] :: Holds(blocks, q, b)
    {
      var b :| b in attempts + [a] + [a] && Holds(blocks, q, b);
      assert b in attempts + [a];
    }
  }

  /** What an append writes is its transaction's blocks, as far as it may go, and zeros. */
  lemma {:induction false} OwnBlocks(t: Transaction, k: nat, a: Attempt)
    requires a.t == t && (InBudget(t) || ShortOfCommit(t, k))
    ensures forall i | 0 <= i < |First(Script(t), k)| ::
              First(Script(t), k)[i] == Zero || (i < Length(a) && First(Script(t), k)[i] == TxBlocks(t)[i])
  {
    if !InBudget(t) {
      WithinScript(t, k);
    }
    hide TxBlocks, DataBlocks;
  }

  /** Zeros at the committed end over the leftovers of any attempts stop the scanner there. */
  lemma {:induction false} RolledBack(s: System, a: Attempt, z: nat)
    requires LogOk(s.log) && LogBlocks(s.log) <= s.blocks && z > 0 && a.start == |LogBlocks(s.log)|
    requires Leftovers(s.blocks, |LogBlocks(s.log)|, s.attempts)
    ensures var r := Overlay(s.blocks, |LogBlocks(s.log)|, First(Footer, z));
            && LogBlocks(s.log) <= r
            && Leftovers(r, |LogBlocks(s.log)|, s.attempts + [a])
            && Stopped(r, |LogBlocks(s.log)|)
  {
    hide LogOk, LogBlocks, Leftovers, TxBlocks;
    KeepsPrefix(s.blocks, |LogBlocks(s.log)|, First(Footer, z), LogBlocks(s.log));
    KeepsLeftovers(s.blocks, |LogBlocks(s.log)|, s.attempts, First(Footer, z), a);
  }

  /** Rolling back after any number of blocks, the commit record included, also keeps it. */
  lemma {:induction false} RollbackKeeps(s: System, t: Transaction, k: nat, z: nat)
    requires Inv(s) && At(s.blocks, |LogBlocks(s.log)|, Footer) && z > 0
    requires WellFormed(t) && (InBudget(t) ==> SignsFirstHeader(t)) && (InBudget(t) || ShortOfCommit(t, k))
    requires forall b <- s.attempts :: b.t.id != t.id
    ensures var end, a := |LogBlocks(s.log)|, Attempt(|LogBlocks(s.log)|, t);
            Inv(System(Overlay(Overlay(s.blocks, end, First(Script(t), k)), end, First(Footer, z)),
                       s.log, s.attempts + [a]))
  {
    var end, a := |LogBlocks(s.log)|, Attempt(|LogBlocks(s.log)|, t);
    var written := First(Script(t), k);
    var mid := Overlay(s.blocks, end, written);
    DistinctGrows(s.attempts, a);
    SignedGrows(s.attempts, a);
    OwnBlocks(t, k, a);
    hide LogOk, LogBlocks, Leftovers, TxBlocks, DataBlocks, WellFormed, Doomed, Distinct, Signed, SignsFirstHeader;
    hide First, InBudget, Length, Script, ShortOfCommit;
    KeepsPrefix(s.blocks, end, written, LogBlocks(s.log));
    KeepsLeftovers(s.blocks, end, s.attempts, written, a);
    hide Overlay;
    RolledBack(System(mid, s.log, s.attempts + [a]), a, z);
    LeftoverOnce(Overlay(mid, end, First(Footer, z)), end, s.attempts, a);
  }

  lemma {:induction false} LeftoversBeyond(blocks: seq<Block>, end: nat, attempts: seq<Attempt>, bs: seq<Block>,
        past: nat)
    requires Leftovers(blocks, end, attempts) && end <= |blocks| && past <= |bs|
    requires forall i | past <= i < |bs| :: bs[i] == Zero
    ensures Leftovers(Overlay(blocks, end, bs), end + past, attempts)
  {
    var r := Overlay(blocks, end, bs);
    forall q | end + past <= q < |r| && r[q] != Zero
      ensures exists b <- attempts :: Holds(r, q, b)
    {
      var b :| b in attempts && Holds(blocks, q, b);
      assert Holds(r, q, b);
    }
  }

  lemma {:induction false} PrefixGrows(blocks: seq<Block>, prefix: seq<Block>, bs: seq<Block>, tail: seq<Block>)
    requires prefix <= blocks
    ensures prefix + bs <= Overlay(blocks, |prefix|, bs + tail)
  {
    var r := Overlay(blocks, |prefix|, bs + tail);
    assert r[..|prefix + bs|] == prefix + bs;
  }

  /** A whole commit record extends the log; every attempt is committed over. */
  lemma {:induction false} CommitKeeps(s: System, t: Transaction, k: nat)
    requires Inv(s)
    requires Admits(t, LogEntries(s.log)) && |TxBlocks(t)| <= k
    ensures Inv(System(Overlay(s.blocks, |LogBlocks(s.log)|, First(Script(t), k)), s.log + [t], s.attempts))
  {
    hide LogOk, LogBlocks, LogEntries, TxBlocks, WellFormed, Leftovers, Admits, First, Script, Overlay, Distinct;
    var end, n := |LogBlocks(s.log)|, |TxBlocks(t)|;
    LogGrows(s.log, t);
    ScriptBeyond(t, k);
    PrefixGrows(s.blocks, LogBlocks(s.log), TxBlocks(t), First(Footer, k - n));
    FirstZeros(k - n);
    LeftoversBeyond(s.blocks, end, s.attempts, First(Script(t), k), n);
  }

  lemma {:induction false} FirstZeros(z: nat)
    ensures forall i | 0 <= i < |First(Footer, z)| :: First(Footer, z)[i] == Zero
  {
  }

  lemma {:induction false} ScriptBeyond(t: Transaction, k: nat)
    requires |TxBlocks(t)| <= k
    ensures First(Script(t), k) == TxBlocks(t) + First(Footer, k - |TxBlocks(t)|)
  {
    hide TxBlocks;
  }

  lemma {:induction false} LogGrows(log: seq<Transaction>, t: Transaction)
    requires LogOk(log) && Admits(t, LogEntries(log))
    ensures LogOk(log + [t]) && LogBlocks(log + [t]) == LogBlocks(log) + TxBlocks(t)
    ensures LogEntries(log + [t]) == LogEntries(log) + EntriesOf(t, |LogBlocks(log)|)
    ensures |TxBlocks(t)| >= 3
  {
    TxLength(t);
    assert WellFormed(t);
    hide TxBlocks, EntriesOf, WellFormed, Admits, InBudget, LogOk, LogEntries, LogBlocks;
    var grown := log + [t];
    assert grown[..|grown| - 1] == log && grown[|grown| - 1] == t;
    LogUnfolds(grown);
  }

  lemma {:induction false} LogUnfolds(log: seq<Transaction>)
    requires log != []
    requires var init, t := log[..|log| - 1], log[|log| - 1];
             LogOk(init) && WellFormed(t) && Admits(t, LogEntries(init))
    ensures var init, t := log[..|log| - 1], log[|log| - 1];
            && LogOk(log)
            && LogBlocks(log) == LogBlocks(init) + TxBlocks(t)
            && LogEntries(log) == LogEntries(init) + EntriesOf(t, |LogBlocks(init)|)
  {
    hide TxBlocks, EntriesOf, WellFormed, Admits, InBudget;
    var init, t := log[..|log| - 1], log[|log| - 1];
    forall u | u in log
      ensures WellFormed(u)
    {
      assert u in init || u == t;
    }
  }
}
