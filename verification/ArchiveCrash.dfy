/** Scanning the leftovers: the scan stops or fails, but never publishes anything from them. */
module ArchiveCrash {
  import opened ArchiveFormat
  import opened ArchiveLengths
  import opened Options
  import opened ArchiveLayout
  import opened ArchiveTail

  /** Why the open transaction `a` with these pending slots can never be accepted:
      its commit is incomplete, a member was skipped, or its first member is wrong. */
  ghost predicate Waiting(blocks: seq<Block>, pos: nat, a: Attempt, pending: map<string, Slot>)
    requires a.t.members != []
  {
    var first := a.t.members[0];
    || Unfinished(blocks, a)
    || (exists j | 0 <= j < |a.t.members| :: a.start + MainOffset(a.t.members, j) < pos && |pending| <= j)
    || (NameFits(first.name) && first.name in pending && pending[first.name].bytes != first.size)
    || (!NameFits(first.name) && first.name !in pending && a.start + MainOffset(a.t.members, 0) < pos)
  }

  ghost predicate Harmless(blocks: seq<Block>, end: nat, attempts: seq<Attempt>, pos: nat, st: ScanState) {
    match st.txn
    case None => st.pending == map[]
    case Some(id) => exists a <- attempts :: a.t.id == id && a.t.members != [] && Waiting(blocks, pos, a, st.pending)
  }

  /** The first item of a transaction read from leftovers already rules out its commit. */
  lemma {:induction false} FirstItemWaits(blocks: seq<Block>, pos: nat, end: nat, attempts: seq<Attempt>, item: Item,
        a: Attempt, j: nat, next: nat)
    requires Tail(blocks, end, attempts) && a in attempts
    requires ReadFrom(item, pos, a, j) && item.at <= next
    requires j == 0 && Beheaded(blocks, end, a) ==> FirstIsLost(item, a)
    ensures Waiting(blocks, next, a, map[item.kind.name := Slot(item.at, item.bytes)])
  {
    assert Unfinished(blocks, a) || Beheaded(blocks, end, a);
  }

  /** Reading on keeps it ruled out. */
  lemma {:induction false} LaterItemWaits(blocks: seq<Block>, pos: nat, end: nat, attempts: seq<Attempt>, item: Item,
        a: Attempt, j: nat, next: nat, pending: map<string, Slot>)
    requires Tail(blocks, end, attempts) && a in attempts
    requires ReadFrom(item, pos, a, j) && item.at <= next
    requires item.kind.name !in pending
    requires Waiting(blocks, pos, a, pending)
    ensures Waiting(blocks, next, a, pending[item.kind.name := Slot(item.at, item.bytes)])
  {
    var ms, first := a.t.members, a.t.members[0];
    var pending' := pending[item.kind.name := Slot(item.at, item.bytes)];
    if Unfinished(blocks, a) {
    } else if NameFits(first.name) && first.name in pending && pending[first.name].bytes != first.size {
    } else if i: nat :| i < |ms| && a.start + MainOffset(ms, i) < pos && |pending| <= i {
      MainsGrow(ms, i, j);
      assert |pending'| <= j;
    } else {
      MainsGrow(ms, 0, j);
      NameFieldFits(ms[j].name);
    }
  }

  lemma {:induction false} RecordEnds(blocks: seq<Block>, item: Item, record: Record)
    requires item.at + Units(item.bytes) <= |blocks| && ParseRecord(blocks, item) == Some(record)
    ensures record.bytes == item.bytes && Units(item.bytes) > 0
    ensures blocks[item.at] == Rec(record, 0)
    ensures blocks[item.at + Units(item.bytes) - 1] == Rec(record, Units(item.bytes) - 1)
  {
    var n := Units(item.bytes);
    var bs := blocks[item.at..item.at + n];
    assert bs == RecordBlocks(record) && bs[0].Rec?;
    hide ParseRecord;
    assert bs[0] == Rec(record, 0) && bs[n - 1] == Rec(record, n - 1);
  }

  /** A block of a commit record sits at its own place in its own attempt. */
  lemma {:induction false} RecordOrigin(blocks: seq<Block>, q: nat, end: nat, attempts: seq<Attempt>)
        returns (a: Attempt)
    requires Tail(blocks, end, attempts) && end <= q < |blocks| && blocks[q].Rec?
    ensures a in attempts && WellFormed(a.t) && blocks[q].record == RecordOf(a.t) && Holds(blocks, q, a)
    ensures blocks[q].record.txn == a.t.id && InBudget(a.t)
    ensures a.start + Length(a) + blocks[q].part == q + Units(blocks[q].record.bytes)
  {
    a := Origin(blocks, q, end, attempts);
    TxLength(a.t);
    hide TxBlocks, GroupOffset, WellFormed, Leftovers, Doomed;
  }

  /** A commit record that parses is some attempt's whole record. */
  lemma {:induction false} WholeRecord(blocks: seq<Block>, end: nat, attempts: seq<Attempt>, item: Item)
        returns (a: Attempt)
    requires Tail(blocks, end, attempts) && end <= item.at
    requires item.at + Units(item.bytes) <= |blocks| && ParseRecord(blocks, item).Some?
    ensures a in attempts && WellFormed(a.t) && ParseRecord(blocks, item).value == RecordOf(a.t)
    ensures !Unfinished(blocks, a)
  {
    hide *;
    RecordEnds(blocks, item, ParseRecord(blocks, item).value);
    var last := item.at + Units(item.bytes) - 1;
    a := RecordOrigin(blocks, item.at, end, attempts);
    var b := RecordOrigin(blocks, last, end, attempts);
    TailIsDistinct(blocks, end, attempts);
    SameAttempt(attempts, a, b);
    Finished(blocks, a);
  }

  lemma {:induction false} TailIsDistinct(blocks: seq<Block>, end: nat, attempts: seq<Attempt>)
    requires Tail(blocks, end, attempts)
    ensures Distinct(attempts)
  {
    hide Distinct, Leftovers, Doomed;
  }

  lemma {:induction false} Finished(blocks: seq<Block>, a: Attempt)
    requires InBudget(a.t) && a.start + Length(a) > 0 && Holds(blocks, a.start + Length(a) - 1, a)
    ensures !Unfinished(blocks, a)
  {
    hide InBudget, Holds, Length;
  }

  /** A complete record does not list what a waiting transaction has staged. */
  lemma {:induction false} StillWaiting(blocks: seq<Block>, pos: nat, a: Attempt, txn: nat, st: ScanState)
    requires WellFormed(a.t) && !Unfinished(blocks, a) && Waiting(blocks, pos, a, st.pending)
    ensures !Accepts(RecordOf(a.t), txn, st)
  {
    assert Rows(a.t.members)[0] in RecordOf(a.t).rows;
  }

  /** No commit record behind the log is ever accepted. */
  lemma {:induction false} NeverAccepted(blocks: seq<Block>, end: nat, attempts: seq<Attempt>, pos: nat,
        st: ScanState, item: Item)
    requires Tail(blocks, end, attempts) && end <= pos < item.at && Harmless(blocks, end, attempts, pos, st)
    requires item.at + Units(item.bytes) <= |blocks|
    requires ParseRecord(blocks, item).Some?
    ensures !Accepts(ParseRecord(blocks, item).value, item.kind.txn, st)
  {
    var a := WholeRecord(blocks, end, attempts, item);
    hide ParseRecord, Unfinished, Waiting, Leftovers, Doomed;
    if Accepts(RecordOf(a.t), item.kind.txn, st) {
      var w :| w in attempts && w.t.id == a.t.id && w.t.members != [] && Waiting(blocks, pos, w, st.pending);
      SameAttempt(attempts, a, w);
      StillWaiting(blocks, pos, a, item.kind.txn, st);
    }
  }

  lemma {:induction false} LeftoverStep(blocks: seq<Block>, end: nat, attempts: seq<Attempt>, pos: nat, st: ScanState,
        next: nat, st': ScanState)
    requires Tail(blocks, end, attempts) && end <= pos && Harmless(blocks, end, attempts, pos, st)
    requires ScanStep(blocks, pos, st) == Go(next, st')
    ensures Harmless(blocks, end, attempts, next, st') && st'.entries == st.entries && st'.end == st.end
  {
    ItemIsAhead(blocks, pos);
    var item := NextItem(blocks, pos).value;
    if item.kind.Data? {
      var a, j := ReadLeftover(blocks, pos, end, attempts);
      if st.txn.None? {
        FirstItemWaits(blocks, pos, end, attempts, item, a, j, next);
        assert st'.pending == map[item.kind.name := Slot(item.at, item.bytes)];
      } else {
        var w :| w in attempts && w.t.id == st.txn.value && w.t.members != [] && Waiting(blocks, pos, w, st.pending);
        SameAttempt(attempts, a, w);
        LaterItemWaits(blocks, pos, end, attempts, item, a, j, next, st.pending);
      }
    } else {
      var record := ParseRecord(blocks, item);
      if record.Some? {
        NeverAccepted(blocks, end, attempts, pos, st, item);
      }
    }
  }

  /** A scan of leftovers publishes nothing: it ends where it began, or fails. */
  lemma {:induction false} LeftoversPublishNothing(blocks: seq<Block>, end: nat, attempts: seq<Attempt>, pos: nat,
        st: ScanState)
    requires Tail(blocks, end, attempts) && end <= pos && Harmless(blocks, end, attempts, pos, st)
    ensures ScanFrom(blocks, pos, st) == ArchiveError || ScanFrom(blocks, pos, st) == Ok(st.entries, st.end)
    decreases |blocks| - pos
  {
    if ScanStep(blocks, pos, st).Go? {
      var Go(next, st') := ScanStep(blocks, pos, st);
      LeftoverStep(blocks, end, attempts, pos, st, next, st');
      hide *;
      LeftoversPublishNothing(blocks, end, attempts, next, st');
    }
  }
}
