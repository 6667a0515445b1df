/** Where the blocks of a transaction lie, and what a block found on disk proves about its writer. */
module ArchiveLayout {
  import opened ArchiveFormat
  import opened ArchiveLengths

  function MemberLength(m: Member): nat {
    HeaderLength(m) + |m.content|
  }

  /** The offset of member `j`'s first header block inside its transaction. */
  function GroupOffset(ms: seq<Member>, j: nat): nat
    requires j <= |ms|
  {
    if j == 0 then 0 else MemberLength(ms[0]) + GroupOffset(ms[1..], j - 1)
  }

  /** The offset of member `j`'s ustar header, the last of its header blocks. */
  function MainOffset(ms: seq<Member>, j: nat): nat
    requires j < |ms|
  {
    GroupOffset(ms, j) + HeaderLength(ms[j]) - 1
  }

  lemma {:induction false} OffsetsGrow(ms: seq<Member>, i: nat, j: nat)
    requires i < j <= |ms|
    ensures GroupOffset(ms, i) + MemberLength(ms[i]) <= GroupOffset(ms, j)
  {
    if i == 0 {
      if j > 1 {
        OffsetsGrow(ms[1..], 0, j - 1);
      }
    } else {
      OffsetsGrow(ms[1..], i - 1, j - 1);
    }
  }

  lemma {:induction false} MainsGrow(ms: seq<Member>, i: nat, j: nat)
    requires i < |ms| && j < |ms| && MainOffset(ms, i) < MainOffset(ms, j)
    ensures i < j
  {
    if j < i {
      OffsetsGrow(ms, j, i);
    }
  }

  lemma {:induction false} DataLength(txn: nat, ms: seq<Member>)
    ensures |DataBlocks(txn, ms)| == GroupOffset(ms, |ms|)
  {
    if ms != [] {
      DataLength(txn, ms[1..]);
    }
  }

  lemma {:induction false} MemberHasLength(txn: nat, m: Member)
    ensures |MemberBlocks(txn, m)| == MemberLength(m)
  {
  }

  lemma {:induction false} SliceOfRest(first: seq<Block>, rest: seq<Block>, g: nat, l: nat)
    requires g + l <= |rest|
    ensures (first + rest)[|first| + g..|first| + g + l] == rest[g..g + l]
  {
  }

  /** Member `j`'s blocks sit at its group offset. */
  lemma {:induction false} DataSlice(txn: nat, ms: seq<Member>, j: nat)
    requires j < |ms|
    ensures GroupOffset(ms, j) + MemberLength(ms[j]) <= |DataBlocks(txn, ms)|
    ensures DataBlocks(txn, ms)[GroupOffset(ms, j)..GroupOffset(ms, j) + MemberLength(ms[j])]
            == MemberBlocks(txn, ms[j])
  {
    hide MemberBlocks, MemberLength;
    var first, rest := MemberBlocks(txn, ms[0]), DataBlocks(txn, ms[1..]);
    assert DataBlocks(txn, ms) == first + rest;
    MemberHasLength(txn, ms[0]);
    if j == 0 {
      assert (first + rest)[0..|first|] == first;
    } else {
      DataSlice(txn, ms[1..], j - 1);
      SliceOfRest(first, rest, GroupOffset(ms[1..], j - 1), MemberLength(ms[j]));
    }
  }

  /** What block `b` at `offset` of the data part must be. */
  ghost predicate DataBlockIs(txn: nat, ms: seq<Member>, offset: nat, b: Block) {
    match b
    case Zero => true
    case Raw(_) => true
    case Ext(parts) => parts >= 1
    case Pax(path, size, part, parts) =>
      exists j | 0 <= j < |ms| ::
        && !Fits(ms[j])
        && offset == GroupOffset(ms, j) + 1 + part
        && parts == Parts(ms[j])
        && path == PathRecord(txn, ms[j].name)
        && size == SizeRecord(ms[j].size)
    case Head(kind, bytes) =>
      exists j | 0 <= j < |ms| ::
        && offset == MainOffset(ms, j)
        && kind == Data(txn, NameField(ms[j].name))
        && bytes == SizeField(ms[j].size)
    case Rec(_, _) => false
  }

  lemma {:induction false} FirstMemberBlockAt(txn: nat, ms: seq<Member>, offset: nat)
    requires ms != [] && offset < MemberLength(ms[0])
    ensures DataBlockIs(txn, ms, offset, MemberBlocks(txn, ms[0])[offset])
  {
    var m := ms[0];
    assert GroupOffset(ms, 0) == 0;
    if offset < HeaderLength(m) - 1 {
      if offset > 0 {
        assert MemberBlocks(txn, m)[offset] == Pax(PathRecord(txn, m.name), SizeRecord(m.size), offset - 1, Parts(m));
      }
    } else if offset == HeaderLength(m) - 1 {
      assert MemberBlocks(txn, m)[offset] == Head(Data(txn, NameField(m.name)), SizeField(m.size));
      assert offset == MainOffset(ms, 0);
    }
  }

  lemma {:induction false} LaterMemberBlock(txn: nat, ms: seq<Member>, offset: nat, b: Block)
    requires ms != [] && DataBlockIs(txn, ms[1..], offset, b)
    ensures DataBlockIs(txn, ms, MemberLength(ms[0]) + offset, b)
  {
    var rest, k := ms[1..], MemberLength(ms[0]);
    match b
    case Pax(path, size, part, parts) =>
      var j :| 0 <= j < |rest| && !Fits(rest[j]) && offset == GroupOffset(rest, j) + 1 + part
               && parts == Parts(rest[j]) && path == PathRecord(txn, rest[j].name) && size == SizeRecord(rest[j].size);
      assert rest[j] == ms[j + 1] && k + offset == GroupOffset(ms, j + 1) + 1 + part;
    case Head(kind, bytes) =>
      var j :| 0 <= j < |rest| && offset == MainOffset(rest, j)
               && kind == Data(txn, NameField(rest[j].name)) && bytes == SizeField(rest[j].size);
      assert rest[j] == ms[j + 1] && k + offset == MainOffset(ms, j + 1);
    case _ =>
  }

  lemma {:induction false} DataParts(txn: nat, ms: seq<Member>)
    requires DataBlocks(txn, ms) != []
    ensures ms != [] && |MemberBlocks(txn, ms[0])| == MemberLength(ms[0])
    ensures DataBlocks(txn, ms) == MemberBlocks(txn, ms[0]) + DataBlocks(txn, ms[1..])
  {
  }

  lemma {:induction false} DataBlockAt(txn: nat, ms: seq<Member>, offset: nat)
    requires offset < |DataBlocks(txn, ms)|
    ensures DataBlockIs(txn, ms, offset, DataBlocks(txn, ms)[offset])
  {
    hide *;
    DataParts(txn, ms);
    var k := MemberLength(ms[0]);
    if offset < k {
      FirstMemberBlockAt(txn, ms, offset);
    } else {
      DataBlockAt(txn, ms[1..], offset - k);
      LaterMemberBlock(txn, ms, offset - k, DataBlocks(txn, ms[1..])[offset - k]);
    }
  }

  /** What block `b` at `offset` of a transaction must be: every header, extended
      record and commit record names its own transaction and its own place. */
  ghost predicate BlockIs(t: Transaction, offset: nat, b: Block) {
    match b
    case Rec(record, part) => record == RecordOf(t) && offset == GroupOffset(t.members, |t.members|) + 1 + part
    case Head(Commit(txn), _) => txn == t.id
    case _ => DataBlockIs(t.id, t.members, offset, b)
  }

  lemma {:induction false} BlockAt(t: Transaction, offset: nat)
    requires offset < |TxBlocks(t)|
    ensures BlockIs(t, offset, TxBlocks(t)[offset])
  {
    DataLength(t.id, t.members);
    var n := GroupOffset(t.members, |t.members|);
    if offset < n {
      assert TxBlocks(t)[offset] == DataBlocks(t.id, t.members)[offset];
      DataBlockAt(t.id, t.members, offset);
    } else {
      assert TxBlocks(t)[offset] == CommitBlocks(t)[offset - n];
    }
  }

  lemma {:induction false} TxLength(t: Transaction)
    requires WellFormed(t)
    ensures |TxBlocks(t)| == GroupOffset(t.members, |t.members|) + 1 + Units(CommitBytes(t))
    ensures |TxBlocks(t)| >= 3
  {
    DataLength(t.id, t.members);
    OffsetsGrow(t.members, 0, |t.members|);
  }
}
