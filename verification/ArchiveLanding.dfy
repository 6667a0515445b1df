/** Where a scanner lands behind an append that stopped, and when it can stop there too. */
module ArchiveLanding {
  // Behind an append that stopped the scanner walks over the members whose headers are whole and lands on
  // whatever lay there before. Rolling back zeroes two blocks and cuts nothing off, so that can be payload
  // of an older attempt. Payload is no header, and then every scan fails and every append is refused.

  import opened ArchiveFormat
  import opened ArchiveLengths
  import opened Options
  import opened ArchiveLayout
  import opened ArchiveLog
  import opened ArchiveTail
  import opened ArchiveCrash
  import opened ArchiveRuns
  import opened ArchiveTorn

  // Where the scanner lands

  /** How many of the first `i` members have their headers whole in the first `k` blocks. */
  function Headed(t: Transaction, k: nat, i: nat): (h: nat)
    requires i <= |t.members|
    ensures h <= i
  {
    if i == 0 then 0 else if MainOffset(t.members, i - 1) < k then i else Headed(t, k, i - 1)
  }

  function Heads(t: Transaction, k: nat): (h: nat)
    ensures h <= |t.members|
  {
    Headed(t, k, |t.members|)
  }

  /** The first `k` blocks end inside an extended header. */
  predicate CutsHeader(t: Transaction, k: nat) {
    Heads(t, k) < |t.members| && GroupOffset(t.members, Heads(t, k)) < k
  }

  /** The first `k` blocks end inside the commit record. */
  predicate CutsCommit(t: Transaction, k: nat) {
    GroupOffset(t.members, |t.members|) < k < |TxBlocks(t)|
  }

  /** The block at which the scanner looks for the next header: behind a cut extended header its ustar
      header, behind a cut payload the next member, and behind a whole transaction the next one. */
  function Landing(t: Transaction, k: nat): nat {
    if CutsHeader(t, k) then MainOffset(t.members, Heads(t, k))
    else if k < |TxBlocks(t)| then GroupOffset(t.members, Heads(t, k))
    else |TxBlocks(t)|
  }

  /** Once the footer is zeroed, block `q` behind the committed end is past the file or zero. */
  predicate Free(blocks: seq<Block>, end: nat, q: nat) {
    q < 2 || end + q >= |blocks| || blocks[end + q] == Zero
  }

  /** The archive can be scanned after an append of `t` that stopped after `k` blocks: no header over the
      budget was among them, and the scanner lands on nothing; a cut commit record must end past the file. */
  predicate Recovers(blocks: seq<Block>, end: nat, t: Transaction, k: nat) {
    && !Reaches(t, k)
    && (if CutsCommit(t, k) then |blocks| < end + |TxBlocks(t)|
        else k > |TxBlocks(t)| || Free(blocks, end, Landing(t, k)))
  }

  lemma {:induction false} HeadedMeans(t: Transaction, k: nat, i: nat, j: nat)
    requires j < i <= |t.members|
    ensures j < Headed(t, k, i) <==> MainOffset(t.members, j) < k
  {
    hide GroupOffset, HeaderLength;
    if j < i - 1 {
      MainsRise(t.members, j, i - 1);
      HeadedMeans(t, k, i - 1, j);
    }
  }

  lemma {:induction false} MainsRise(ms: seq<Member>, i: nat, j: nat)
    requires i < j < |ms|
    ensures MainOffset(ms, i) < GroupOffset(ms, j) <= MainOffset(ms, j)
  {
    OffsetsGrow(ms, i, j);
  }

  lemma {:induction false} HeaderEnds(m: Member)
    ensures HeaderLength(m) >= 1 && (HeaderLength(m) > 1 ==> !Fits(m) && HeaderLength(m) == 2 + Parts(m))
  {
  }

  // What lies behind

  /** The block was written by another transaction, or says nothing about its writer. */
  predicate Elsewhere(b: Block, id: nat) {
    match b
    case Head(kind, _) => kind.txn != id
    case Pax(path, _, _, _) => path.Some? ==> path.value.txn != id
    case Rec(record, _) => record.txn != id
    case _ => true
  }

  predicate Foreign(blocks: seq<Block>, from: nat, id: nat) {
    forall q | from <= q < |blocks| :: Elsewhere(blocks[q], id)
  }

  /** No header of an older attempt is left. */
  predicate NoHeaders(blocks: seq<Block>, from: nat) {
    forall q | from <= q < |blocks| :: !blocks[q].Head? && !blocks[q].Ext?
  }

  /** No complete member begins here, and nothing that breaks the scan. */
  predicate Quiet(blocks: seq<Block>, pos: nat) {
    match HeaderAvailable(blocks, pos)
    case Absent => true
    case Corrupt => false
    case Present =>
      var item := NextItem(blocks, pos);
      item.Some? && item.value.at + Units(item.value.bytes) > |blocks|
  }

  lemma {:induction false} ForeignItem(blocks: seq<Block>, pos: nat, id: nat)
    requires Foreign(blocks, pos, id) && HeaderAvailable(blocks, pos) == Present && NextItem(blocks, pos).Some?
    ensures NextItem(blocks, pos).value.kind.txn != id
    decreases |blocks| - pos
  {
    if blocks[pos].Ext? {
      var next := pos + 1 + blocks[pos].parts;
      var bs := blocks[pos + 1..next];
      ForeignItem(blocks, next, id);
      if bs != [] {
        assert bs[0] == blocks[pos + 1];
        assert Elsewhere(blocks[pos + 1], id);
      }
    } else {
      assert Elsewhere(blocks[pos], id);
    }
  }

  /** With a member of transaction `id` staged, the scanner gets no further among foreign blocks. */
  lemma {:induction false} ForeignEnds(blocks: seq<Block>, pos: nat, id: nat, st: ScanState)
    requires Foreign(blocks, pos, id) && st.txn == Some(id)
    ensures ScanFrom(blocks, pos, st) == if Quiet(blocks, pos) then Ok(st.entries, st.end) else ArchiveError
  {
    hide Foreign, Units;
    if HeaderAvailable(blocks, pos) == Present && NextItem(blocks, pos).Some? {
      ForeignItem(blocks, pos, id);
      hide HeaderAvailable, NextItem, ParseRecord;
    }
  }

  lemma {:induction false} QuietWithoutHeaders(blocks: seq<Block>, pos: nat)
    requires NoHeaders(blocks, pos)
    ensures HeaderAvailable(blocks, pos) != Present
    ensures Quiet(blocks, pos) <==> pos >= |blocks| || blocks[pos] == Zero
  {
  }

  // Up to the landing

  /** The file holds the first `k` blocks of `t` behind `end`. */
  predicate Begun(blocks: seq<Block>, end: nat, t: Transaction, k: nat) {
    k <= |TxBlocks(t)| && end + k <= |blocks| && blocks[end..end + k] == TxBlocks(t)[..k]
  }

  lemma {:induction false} BegunAt(blocks: seq<Block>, end: nat, t: Transaction, k: nat, o: nat, bs: seq<Block>)
    requires Begun(blocks, end, t, k) && At(TxBlocks(t), o, bs) && o + |bs| <= k
    ensures At(blocks, end + o, bs)
  {
    hide TxBlocks;
    SliceOf(blocks, end, end + k, o, o + |bs|);
    assert TxBlocks(t)[..k][o..o + |bs|] == TxBlocks(t)[o..o + |bs|];
  }

  lemma {:induction false} SliceOf(bs: seq<Block>, a: nat, b: nat, o: nat, p: nat)
    requires a <= b <= |bs| && o <= p <= b - a
    ensures bs[a..b][o..p] == bs[a + o..a + p]
  {
    assert forall i | 0 <= i < p - o :: bs[a..b][o..p][i] == bs[a + o..a + p][i];
  }

  lemma {:induction false} MemberInScript(t: Transaction, j: nat)
    requires j < |t.members|
    ensures At(TxBlocks(t), GroupOffset(t.members, j), HeaderBlocks(t.id, t.members[j]))
    ensures GroupOffset(t.members, j) + |HeaderBlocks(t.id, t.members[j])| == MainOffset(t.members, j) + 1
    ensures GroupOffset(t.members, j) <= MainOffset(t.members, j)
  {
    hide TxBlocks, HeaderBlocks, GroupOffset;
    assert At(TxBlocks(t), 0, TxBlocks(t));
    MemberAt(TxBlocks(t), 0, t, j);
    HeaderIsLong(t.id, t.members[j]);
  }

  lemma {:induction false} HeaderIsLong(txn: nat, m: Member)
    ensures |HeaderBlocks(txn, m)| == HeaderLength(m) >= 1
  {
  }

  lemma {:induction false} HeaderAt(blocks: seq<Block>, end: nat, t: Transaction, k: nat, j: nat)
    requires Begun(blocks, end, t, k) && j < Heads(t, k)
    ensures At(blocks, end + GroupOffset(t.members, j), HeaderBlocks(t.id, t.members[j]))
    ensures GroupOffset(t.members, j) <= MainOffset(t.members, j) < k
  {
    hide TxBlocks, HeaderBlocks, GroupOffset, At, Begun, MainOffset;
    HeadedMeans(t, k, |t.members|, j);
    MemberInScript(t, j);
    BegunAt(blocks, end, t, k, GroupOffset(t.members, j), HeaderBlocks(t.id, t.members[j]));
  }

  /** The scanner walks over the members whose headers are whole, as long as they end inside the file. */
  lemma {:induction false} WalksTo(blocks: seq<Block>, end: nat, t: Transaction, k: nat, i: nat, st: ScanState)
    requires Begun(blocks, end, t, k) && WellFormed(t) && !Reaches(t, k) && i <= Heads(t, k)
    requires end + GroupOffset(t.members, i) <= |blocks| && st.pending == map[] && st.txn == None
    ensures ScanFrom(blocks, end, st) == ScanFrom(blocks, end + GroupOffset(t.members, i), Midway(st, t, end, i))
  {
    hide Begun, TxBlocks, HeaderBlocks, GroupOffset, At, Reaches, Oversized, WellFormed, ScanFrom, MainOffset;
    forall j | 0 <= j < i
      ensures At(blocks, end + GroupOffset(t.members, j), HeaderBlocks(t.id, t.members[j]))
      ensures !Oversized(t.members[j])
    {
      HeaderAt(blocks, end, t, k, j);
      NotReached(t, k, j);
    }
    ScanMembers(blocks, end, st, t, i);
  }

  /** The last member whose header is whole may end past the file: then the scanner stops before it. */
  lemma {:induction false} StopsShort(blocks: seq<Block>, end: nat, t: Transaction, k: nat, st: ScanState)
    requires Begun(blocks, end, t, k) && WellFormed(t) && !Reaches(t, k)
    requires end + GroupOffset(t.members, Heads(t, k)) > |blocks| && st.pending == map[] && st.txn == None
    ensures ScanFrom(blocks, end, st) == Ok(st.entries, st.end)
  {
    hide *;
    var h := Heads(t, k);
    HasHeads(blocks, end, t, k);
    var m, pos := t.members[h - 1], end + GroupOffset(t.members, h - 1);
    HeaderAt(blocks, end, t, k, h - 1);
    NotReached(t, k, h - 1);
    BegunFits(blocks, end, t, k);
    WalksTo(blocks, end, t, k, h - 1, st);
    var mid := Midway(st, t, end, h - 1);
    MidwayStays(st, t, end, h - 1);
    NextGroup(t.members, h - 1);
    MemberMeasures(t, h - 1);
    ReadHeader(blocks, pos, t.id, m);
    ShortItemStops(blocks, pos, mid, Item(Data(t.id, m.name), m.size, pos + HeaderLength(m)));
    Halts(blocks, pos, mid);
  }

  lemma {:induction false} BegunFits(blocks: seq<Block>, end: nat, t: Transaction, k: nat)
    requires Begun(blocks, end, t, k)
    ensures end + k <= |blocks|
  {
  }

  lemma {:induction false} HasHeads(blocks: seq<Block>, end: nat, t: Transaction, k: nat)
    requires Begun(blocks, end, t, k) && end + GroupOffset(t.members, Heads(t, k)) > |blocks|
    ensures Heads(t, k) > 0
  {
  }

  // At the landing

  lemma {:induction false} MidwayOwns(st: ScanState, t: Transaction, pos: nat, i: nat)
    requires 0 < i <= |t.members|
    ensures Midway(st, t, pos, i).txn == Some(t.id)
  {
  }

  /** Behind whole members, or inside the payload of the last one, what lies at the next header's place
      decides: the scanner stops there or fails, whatever the leftovers. */
  lemma {:induction false} PayloadLands(blocks: seq<Block>, end: nat, t: Transaction, k: nat, st: ScanState)
    requires Begun(blocks, end, t, k) && WellFormed(t) && !Reaches(t, k) && k <= GroupOffset(t.members, Heads(t, k))
    requires Foreign(blocks, end + k, t.id) && (k == 0 ==> Quiet(blocks, end))
    requires st.pending == map[] && st.txn == None
    ensures ScanFrom(blocks, end, st)
         == if Quiet(blocks, end + GroupOffset(t.members, Heads(t, k))) then Ok(st.entries, st.end) else ArchiveError
  {
    hide *;
    var h := Heads(t, k);
    var pos := end + GroupOffset(t.members, h);
    if pos > |blocks| {
      StopsShort(blocks, end, t, k, st);
      QuietBeyond(blocks, pos);
    } else {
      WalksTo(blocks, end, t, k, h, st);
      MidwayStays(st, t, end, h);
      if h > 0 {
        MidwayOwns(st, t, end, h);
        ForeignFrom(blocks, end + k, pos, t.id);
        ForeignEnds(blocks, pos, t.id, Midway(st, t, end, h));
      } else {
        NoOffset(t);
        QuietStops(blocks, end, Midway(st, t, end, h));
      }
    }
  }

  lemma {:induction false} NoOffset(t: Transaction)
    ensures GroupOffset(t.members, 0) == 0
  {
  }

  lemma {:induction false} ForeignFrom(blocks: seq<Block>, from: nat, pos: nat, id: nat)
    requires Foreign(blocks, from, id) && from <= pos
    ensures Foreign(blocks, pos, id)
  {
  }

  lemma {:induction false} QuietBeyond(blocks: seq<Block>, pos: nat)
    requires pos >= |blocks|
    ensures Quiet(blocks, pos)
  {
  }

  lemma {:induction false} QuietStops(blocks: seq<Block>, pos: nat, st: ScanState)
    requires Quiet(blocks, pos)
    ensures ScanFrom(blocks, pos, st) == Ok(st.entries, st.end)
  {
  }

  /** A cut extended header over leftovers without headers: its ustar header is missing or broken. */
  lemma {:induction false} HeaderLands(blocks: seq<Block>, end: nat, t: Transaction, k: nat, st: ScanState)
    requires Begun(blocks, end, t, k) && WellFormed(t) && !Reaches(t, k) && CutsHeader(t, k)
    requires NoHeaders(blocks, end + k) && st.pending == map[] && st.txn == None
    ensures ScanFrom(blocks, end, st)
         == if Quiet(blocks, end + MainOffset(t.members, Heads(t, k))) then Ok(st.entries, st.end) else ArchiveError
  {
    hide *;
    var h := Heads(t, k);
    CutIsInside(t, k);
    var m, pos := t.members[h], end + GroupOffset(t.members, h);
    CutHeaderBegins(blocks, end, t, k);
    WalksTo(blocks, end, t, k, h, st);
    MidwayStays(st, t, end, h);
    var main := end + MainOffset(t.members, h);
    NoHeadersFrom(blocks, end + k, main);
    QuietWithoutHeaders(blocks, main);
    ExtLeads(blocks, pos, Parts(m), Midway(st, t, end, h));
  }

  lemma {:induction false} CutIsInside(t: Transaction, k: nat)
    requires CutsHeader(t, k)
    ensures Heads(t, k) < |t.members|
  {
  }

  lemma {:induction false} NoHeadersFrom(blocks: seq<Block>, from: nat, pos: nat)
    requires NoHeaders(blocks, from) && from <= pos
    ensures NoHeaders(blocks, pos)
  {
  }

  lemma {:induction false} CutHeaderBegins(blocks: seq<Block>, end: nat, t: Transaction, k: nat)
    requires Begun(blocks, end, t, k) && WellFormed(t) && !Reaches(t, k) && CutsHeader(t, k)
    ensures var h := Heads(t, k);
            var m, pos := t.members[h], end + GroupOffset(t.members, h);
      && pos < |blocks| && blocks[pos] == Ext(Parts(m)) && Parts(m) * 512 <= MAX_METADATA
      && end + MainOffset(t.members, h) == pos + 1 + Parts(m) && k <= MainOffset(t.members, h) && !Fits(m)
  {
    hide Begun, TxBlocks, HeaderBlocks, At, Reaches, Oversized, WellFormed, HeaderLength, Fits;
    var h := Heads(t, k);
    var m := t.members[h];
    HeadedMeans(t, k, |t.members|, h);
    HeaderEnds(m);
    NotReached(t, k, h);
    InsideBudget(m);
    MemberInScript(t, h);
    FirstOfHeader(t.id, m);
    AtPrefix(TxBlocks(t), GroupOffset(t.members, h), [Ext(Parts(m))], HeaderBlocks(t.id, m));
    BegunAt(blocks, end, t, k, GroupOffset(t.members, h), [Ext(Parts(m))]);
    AtOne(blocks, end + GroupOffset(t.members, h), Ext(Parts(m)));
  }

  lemma {:induction false} InsideBudget(m: Member)
    requires !Fits(m) && !Oversized(m)
    ensures Parts(m) * 512 <= MAX_METADATA
  {
  }

  lemma {:induction false} FirstOfHeader(txn: nat, m: Member)
    requires !Fits(m)
    ensures [Ext(Parts(m))] <= HeaderBlocks(txn, m)
  {
  }

  lemma {:induction false} AtPrefix(blocks: seq<Block>, pos: nat, a: seq<Block>, bs: seq<Block>)
    requires At(blocks, pos, bs) && a <= bs
    ensures At(blocks, pos, a)
  {
    assert bs == a + bs[|a|..];
    AtSplit(blocks, pos, a, bs[|a|..]);
  }

  lemma {:induction false} AtOne(blocks: seq<Block>, pos: nat, b: Block)
    requires At(blocks, pos, [b])
    ensures pos < |blocks| && blocks[pos] == b
  {
    assert blocks[pos..pos + 1][0] == b;
  }

  /** An extended header within the budget leads to the header behind it. */
  lemma {:induction false} ExtLeads(blocks: seq<Block>, pos: nat, parts: nat, st: ScanState)
    requires pos < |blocks| && blocks[pos] == Ext(parts) && parts * 512 <= MAX_METADATA
    requires HeaderAvailable(blocks, pos + 1 + parts) != Present
    ensures ScanFrom(blocks, pos, st)
         == if Quiet(blocks, pos + 1 + parts) then Ok(st.entries, st.end) else ArchiveError
  {
    if pos + 1 + parts > |blocks| {
      QuietBeyond(blocks, pos + 1 + parts);
    }
  }

  /** A cut commit record that ends inside the file is never accepted. */
  lemma {:induction false} CommitLands(blocks: seq<Block>, end: nat, t: Transaction, k: nat, st: ScanState)
    requires Begun(blocks, end, t, k) && WellFormed(t) && !Reaches(t, k) && CutsCommit(t, k)
    requires Foreign(blocks, end + k, t.id) && st.pending == map[] && st.txn == None
    ensures ScanFrom(blocks, end, st)
         == if |blocks| < end + |TxBlocks(t)| then Ok(st.entries, st.end) else ArchiveError
  {
    hide *;
    var n := |t.members|;
    var pos := end + GroupOffset(t.members, n);
    CutCommitBegins(blocks, end, t, k);
    WalksTo(blocks, end, t, k, n, st);
    MidwayStays(st, t, end, n);
    CutRecord(blocks, pos, t, end + k, Midway(st, t, end, n));
  }

  lemma {:induction false} CutCommitBegins(blocks: seq<Block>, end: nat, t: Transaction, k: nat)
    requires Begun(blocks, end, t, k) && WellFormed(t) && CutsCommit(t, k)
    ensures var pos := end + GroupOffset(t.members, |t.members|);
      && Heads(t, k) == |t.members| && pos < |blocks| && blocks[pos] == Head(Commit(t.id), CommitBytes(t))
      && end + |TxBlocks(t)| == pos + 1 + Units(CommitBytes(t)) && end + k < pos + 1 + Units(CommitBytes(t))
  {
    hide Begun, HeaderLength, WellFormed, At, CommitBytes, Units;
    var n := |t.members|;
    TxLength(t);
    if n > 0 {
      HeadedMeans(t, k, n, n - 1);
      LastHeaderBefore(t.members);
    }
    hide GroupOffset, MainOffset;
    CommitInScript(t);
    BegunAt(blocks, end, t, k, GroupOffset(t.members, n), [Head(Commit(t.id), CommitBytes(t))]);
    AtOne(blocks, end + GroupOffset(t.members, n), Head(Commit(t.id), CommitBytes(t)));
  }

  lemma {:induction false} LastHeaderBefore(ms: seq<Member>)
    requires ms != []
    ensures MainOffset(ms, |ms| - 1) < GroupOffset(ms, |ms|)
  {
    OffsetsGrow(ms, |ms| - 1, |ms|);
    HeaderEnds(ms[|ms| - 1]);
  }

  lemma {:induction false} CommitInScript(t: Transaction)
    ensures At(TxBlocks(t), GroupOffset(t.members, |t.members|), [Head(Commit(t.id), CommitBytes(t))])
  {
    hide RecordBlocks, GroupOffset, DataBlocks;
    assert At(TxBlocks(t), 0, TxBlocks(t));
    CommitAt(TxBlocks(t), 0, t);
    AtPrefix(TxBlocks(t), GroupOffset(t.members, |t.members|), [Head(Commit(t.id), CommitBytes(t))], CommitBlocks(t));
  }

  lemma {:induction false} CutRecord(blocks: seq<Block>, pos: nat, t: Transaction, from: nat, st: ScanState)
    requires pos < |blocks| && blocks[pos] == Head(Commit(t.id), CommitBytes(t))
    requires from < pos + 1 + Units(CommitBytes(t)) && Foreign(blocks, from, t.id)
    ensures ScanFrom(blocks, pos, st)
         == if |blocks| < pos + 1 + Units(CommitBytes(t)) then Ok(st.entries, st.end) else ArchiveError
  {
    hide CommitBytes, Foreign, Accepts, ParseRecord, Units;
    var item := Item(Commit(t.id), CommitBytes(t), pos + 1);
    assert HeaderAvailable(blocks, pos) == Present && NextItem(blocks, pos) == Some(item);
    if pos + 1 + Units(CommitBytes(t)) <= |blocks| {
      NoWholeRecord(blocks, item, t.id, from);
      NotAccepted(blocks, item, t.id, st);
    }
  }

  lemma {:induction false} NotAccepted(blocks: seq<Block>, item: Item, id: nat, st: ScanState)
    requires item.at + Units(item.bytes) <= |blocks| && item.kind == Commit(id)
    requires ParseRecord(blocks, item).Some? ==> ParseRecord(blocks, item).value.txn != id
    ensures CommitStep(blocks, item, st) == Fail
  {
    hide ParseRecord, Units;
  }

  lemma {:induction false} NoWholeRecord(blocks: seq<Block>, item: Item, id: nat, from: nat)
    requires item.at + Units(item.bytes) <= |blocks| && from < item.at + Units(item.bytes)
    requires Foreign(blocks, from, id)
    ensures ParseRecord(blocks, item).Some? ==> ParseRecord(blocks, item).value.txn != id
  {
    hide ParseRecord, Foreign, Units;
    if ParseRecord(blocks, item).Some? {
      RecordEndsThere(blocks, item);
      ForeignAt(blocks, from, item.at + Units(item.bytes) - 1, id);
    }
  }

  lemma {:induction false} RecordEndsThere(blocks: seq<Block>, item: Item)
    requires item.at + Units(item.bytes) <= |blocks| && ParseRecord(blocks, item).Some?
    ensures Units(item.bytes) > 0
    ensures blocks[item.at + Units(item.bytes) - 1]
         == Rec(ParseRecord(blocks, item).value, Units(item.bytes) - 1)
  {
    RecordEnds(blocks, item, ParseRecord(blocks, item).value);
  }

  lemma {:induction false} ForeignAt(blocks: seq<Block>, from: nat, q: nat, id: nat)
    requires Foreign(blocks, from, id) && from <= q < |blocks|
    ensures Elsewhere(blocks[q], id)
  {
  }

  // The file after a stopped append

  function TornBlocks(blocks: seq<Block>, end: nat, t: Transaction, k: nat): seq<Block>
    requires end <= |blocks|
  {
    Overlay(Zeroed(blocks, end), end, First(Script(t), k))
  }

  lemma {:induction false} ZeroedBlocks(blocks: seq<Block>, end: nat)
    requires end <= |blocks|
    ensures var z := Zeroed(blocks, end);
      && |z| == (if |blocks| < end + 2 then end + 2 else |blocks|) && z[..end] == blocks[..end]
      && forall q | end <= q < |z| :: z[q] == if q < end + 2 then Zero else blocks[q]
  {
    if At(blocks, end, Footer) {
      assert blocks[end..end + 2][0] == blocks[end] && blocks[end..end + 2][1] == blocks[end + 1];
    }
  }

  /** What the file holds then: the blocks written, and behind them what was there before. */
  lemma {:induction false} WrittenBlocks(blocks: seq<Block>, prefix: seq<Block>, t: Transaction, k: nat)
    requires prefix <= blocks && k <= |TxBlocks(t)|
    ensures var end, r := |prefix|, TornBlocks(blocks, |prefix|, t, k);
      && prefix <= r && Begun(r, end, t, k) && prefix + TxBlocks(t)[..k] <= r
      && |blocks| <= |r| && end + 2 <= |r|
      && (forall q | end + k <= q < |r| :: r[q] == if q < end + 2 then Zero else blocks[q])
      && (|r| == |blocks| || |r| == end + 2 || |r| == end + k)
  {
    hide TxBlocks, Zeroed;
    ZeroedBlocks(blocks, |prefix|);
    ScriptWithin(t, k);
    hide Script, First;
    var end, r := |prefix|, TornBlocks(blocks, |prefix|, t, k);
    assert r[..end] == prefix;
    assert r[end..end + k] == TxBlocks(t)[..k];
    assert r[..end + k] == prefix + TxBlocks(t)[..k];
  }

  lemma {:induction false} ScriptWithin(t: Transaction, k: nat)
    requires k <= |TxBlocks(t)|
    ensures First(Script(t), k) == TxBlocks(t)[..k]
  {
    hide TxBlocks;
  }

  /** Behind what was written, free blocks are those where the scanner finds nothing. */
  lemma {:induction false} FreeIsQuiet(blocks: seq<Block>, prefix: seq<Block>, t: Transaction, k: nat, q: nat)
    requires prefix <= blocks && k <= q && k <= |TxBlocks(t)| && NoHeaders(blocks, |prefix| + 2)
    ensures var r := TornBlocks(blocks, |prefix|, t, k);
      NoHeaders(r, |prefix| + k) && (Quiet(r, |prefix| + q) <==> Free(blocks, |prefix|, q))
  {
    hide TornBlocks, Begun, TxBlocks, Quiet;
    WrittenBlocks(blocks, prefix, t, k);
    QuietWithoutHeaders(TornBlocks(blocks, |prefix|, t, k), |prefix| + q);
  }

  /** Leftovers name their own attempts, and a new transaction none of them. */
  lemma {:induction false} LeftoverIsForeign(s: System, e: Append, q: nat)
    requires Inv(s) && Sound(s, e) && |LogBlocks(s.log)| <= q < |s.blocks|
    ensures Elsewhere(s.blocks[q], e.t.id)
  {
    hide LogBlocks, Distinct, Doomed, Signed, LogOk, WellFormedMember, Elsewhere, Holds, BlockIs;
    if s.blocks[q] == Zero {
      ZeroIsElsewhere(e.t.id);
    } else {
      var a := Origin(s.blocks, q, |LogBlocks(s.log)|, s.attempts);
      OriginIsElsewhere(a.t, q - a.start, s.blocks[q], e.t.id);
    }
  }

  lemma {:induction false} LeftoversAreForeign(s: System, e: Append)
    requires Inv(s) && Sound(s, e)
    ensures Foreign(s.blocks, |LogBlocks(s.log)| + 2, e.t.id)
  {
    hide Inv, Sound, LogBlocks, Elsewhere;
    forall q | |LogBlocks(s.log)| + 2 <= q < |s.blocks|
      ensures Elsewhere(s.blocks[q], e.t.id)
    {
      LeftoverIsForeign(s, e, q);
    }
  }

  lemma {:induction false} ZeroIsElsewhere(id: nat)
    ensures Elsewhere(Zero, id)
  {
  }

  lemma {:induction false} OriginIsElsewhere(t: Transaction, offset: nat, b: Block, id: nat)
    requires BlockIs(t, offset, b) && t.id != id
    ensures Elsewhere(b, id)
  {
  }

  lemma {:induction false} StillForeign(blocks: seq<Block>, prefix: seq<Block>, t: Transaction, k: nat)
    requires prefix <= blocks && k <= |TxBlocks(t)| && Foreign(blocks, |prefix| + 2, t.id)
    ensures Foreign(TornBlocks(blocks, |prefix|, t, k), |prefix| + k, t.id)
  {
    hide TornBlocks, Begun, TxBlocks, Elsewhere;
    WrittenBlocks(blocks, prefix, t, k);
    ZeroIsElsewhere(t.id);
  }

  // Stopped short of the commit

  /** Outside extended headers and the commit record the landing is the next member's place. */
  lemma {:induction false} LandsOnMember(t: Transaction, k: nat)
    requires k < |TxBlocks(t)| && !CutsHeader(t, k) && !CutsCommit(t, k)
    ensures Landing(t, k) == GroupOffset(t.members, Heads(t, k)) >= k
  {
  }

  lemma {:induction false} LandsOnHeader(t: Transaction, k: nat)
    requires CutsHeader(t, k)
    ensures Landing(t, k) == MainOffset(t.members, Heads(t, k)) >= k && !CutsCommit(t, k)
  {
    hide GroupOffset, TxBlocks, HeaderLength;
    HeadedMeans(t, k, |t.members|, Heads(t, k));
    MainsBound(t.members, Heads(t, k));
  }

  lemma {:induction false} MainsBound(ms: seq<Member>, i: nat)
    requires i < |ms|
    ensures MainOffset(ms, i) < GroupOffset(ms, |ms|)
  {
    OffsetsGrow(ms, i, |ms|);
    HeaderEnds(ms[i]);
  }

  /** Over any leftovers, an append that stops neither in an extended header nor behind its commit record. */
  lemma {:induction false} AnyLeftoversScan(log: seq<Transaction>, t: Transaction, blocks: seq<Block>, k: nat)
    requires LogOk(log) && WellFormed(t) && k < |TxBlocks(t)| && !Reaches(t, k) && !CutsHeader(t, k)
    requires LogBlocks(log) <= blocks && Foreign(blocks, |LogBlocks(log)| + 2, t.id)
    ensures var end := |LogBlocks(log)|;
            var r := TornBlocks(blocks, end, t, k);
            var quiet := if CutsCommit(t, k) then |blocks| < end + |TxBlocks(t)| else Quiet(r, end + Landing(t, k));
            Scan(r) == if quiet then Ok(LogEntries(log), end) else ArchiveError
  {
    hide *;
    var end := |LogBlocks(log)|;
    var r := TornBlocks(blocks, end, t, k);
    WrittenBlocks(blocks, LogBlocks(log), t, k);
    StillForeign(blocks, LogBlocks(log), t, k);
    LogIsWellFormed(log);
    ScanLog(r, log);
    BehindIsIdle(log);
    BehindIs(log);
    TxLength(t);
    if CutsCommit(t, k) {
      CommitLands(r, end, t, k, Behind(log));
    } else {
      if k == 0 {
        ZeroIsQuiet(r, end);
      }
      LandsOnMember(t, k);
      PayloadLands(r, end, t, k, Behind(log));
    }
  }

  lemma {:induction false} BehindIs(log: seq<Transaction>)
    requires forall t <- log :: WellFormed(t)
    ensures Behind(log).entries == LogEntries(log) && Behind(log).end == |LogBlocks(log)|
  {
  }

  lemma {:induction false} ZeroIsQuiet(blocks: seq<Block>, pos: nat)
    requires pos < |blocks| && blocks[pos] == Zero
    ensures Quiet(blocks, pos)
  {
  }

  /** Over leftovers without headers, an append that stops anywhere short of its commit scans as the old
      index if and only if it recovers, by what lay in the file before it. */
  lemma {:induction false} TornAppendRecovers(log: seq<Transaction>, t: Transaction, blocks: seq<Block>, k: nat)
    requires LogOk(log) && WellFormed(t) && k < |TxBlocks(t)| && LogBlocks(log) <= blocks
    requires Foreign(blocks, |LogBlocks(log)| + 2, t.id) && NoHeaders(blocks, |LogBlocks(log)| + 2)
    ensures Scan(AppendBlocks(blocks, |LogBlocks(log)|, t, Die(k)))
         == if Recovers(blocks, |LogBlocks(log)|, t, k) then Ok(LogEntries(log), |LogBlocks(log)|) else ArchiveError
  {
    hide *;
    var end := |LogBlocks(log)|;
    var r := TornBlocks(blocks, end, t, k);
    DieIsOverlay(blocks, end, t, k);
    TornIs(blocks, end, t, k);
    RecoversMeans(blocks, end, t, k);
    LogIsWellFormed(log);
    WrittenBlocks(blocks, LogBlocks(log), t, k);
    if Reaches(t, k) {
      OversizedHeaderLocks(log, t, r, k);
    } else if CutsHeader(t, k) {
      ScanLog(r, log);
      BehindIsIdle(log);
      BehindIs(log);
      LandsOnHeader(t, k);
      FreeIsQuiet(blocks, LogBlocks(log), t, k, Landing(t, k));
      HeaderLands(r, end, t, k, Behind(log));
    } else {
      AnyLeftoversScan(log, t, blocks, k);
      if !CutsCommit(t, k) {
        LandsOnMember(t, k);
        FreeIsQuiet(blocks, LogBlocks(log), t, k, Landing(t, k));
      }
    }
  }

  lemma {:induction false} TornIs(blocks: seq<Block>, end: nat, t: Transaction, k: nat)
    requires end <= |blocks|
    ensures TornBlocks(blocks, end, t, k) == Overlay(Zeroed(blocks, end), end, First(Script(t), k))
  {
  }

  lemma {:induction false} RecoversMeans(blocks: seq<Block>, end: nat, t: Transaction, k: nat)
    requires k < |TxBlocks(t)|
    ensures Recovers(blocks, end, t, k) <==>
      && !Reaches(t, k)
      && (if CutsCommit(t, k) then |blocks| < end + |TxBlocks(t)| else Free(blocks, end, Landing(t, k)))
  {
  }
}
