/** What a scanner can make of the blocks behind the committed log. */
module ArchiveTail {
  // Those blocks are leftovers of attempts that never committed, overwritten in part by later attempts.
  // Rolling back rewrites only two blocks, so whole members and even whole commit records of a failed
  // attempt can survive. The lemmas here show why no mixture of leftovers is ever read as a transaction.

  import opened ArchiveFormat
  import opened ArchiveLengths
  import opened Options
  import opened ArchiveLayout

  /** Transaction `t` was once being written from block `start`. */
  datatype Attempt = Attempt(start: nat, t: Transaction)

  /** How far the attempt could write: a commit record over the budget is never written. */
  function Length(a: Attempt): nat {
    if InBudget(a.t) then |TxBlocks(a.t)| else |DataBlocks(a.t.id, a.t.members)|
  }

  /** Block `q` still holds what attempt `a` put there. */
  predicate Holds(blocks: seq<Block>, q: nat, a: Attempt) {
    && q < |blocks|
    && a.start <= q < a.start + Length(a)
    && blocks[q] == TxBlocks(a.t)[q - a.start]
  }

  /** From block `end` on, every block is zero or left over from some attempt. */
  ghost predicate Leftovers(blocks: seq<Block>, end: nat, attempts: seq<Attempt>) {
    forall q | end <= q < |blocks| :: blocks[q] == Zero || exists a <- attempts :: Holds(blocks, q, a)
  }

  ghost predicate Distinct(attempts: seq<Attempt>) {
    && (forall a <- attempts :: WellFormed(a.t))
    && (forall i, j | 0 <= i < j < |attempts| :: attempts[i].t.id != attempts[j].t.id)
  }

  /** The last block of the commit record never reached the file. */
  predicate Unfinished(blocks: seq<Block>, a: Attempt) {
    !InBudget(a.t) || !Holds(blocks, a.start + Length(a) - 1, a)
  }

  /** The first header of the transaction names the transaction: an extended header that
      carries only a size could belong to anybody. */
  predicate SignsFirstHeader(t: Transaction) {
    t.members != [] ==> t.members[0].size < SIZE_FIELD || !NameFits(t.members[0].name)
  }

  /** The first two blocks no longer open attempt `a` or lend a size to its first member. */
  predicate Headless(blocks: seq<Block>, a: Attempt) {
    && (a.start < |blocks| && blocks[a.start].Head? ==> blocks[a.start].kind.txn != a.t.id)
    && (a.start + 1 < |blocks| && blocks[a.start + 1].Pax? ==>
          if blocks[a.start + 1].path.Some? then blocks[a.start + 1].path.value.txn != a.t.id
          else SignsFirstHeader(a.t))
  }

  /** The start of attempt `a` is gone: committed over, or overwritten in place. */
  predicate Beheaded(blocks: seq<Block>, end: nat, a: Attempt) {
    a.start + 3 <= end || (a.start == end && Headless(blocks, a))
  }

  ghost predicate Doomed(blocks: seq<Block>, end: nat, attempts: seq<Attempt>) {
    forall a <- attempts :: Unfinished(blocks, a) || Beheaded(blocks, end, a)
  }

  ghost predicate Tail(blocks: seq<Block>, end: nat, attempts: seq<Attempt>) {
    Leftovers(blocks, end, attempts) && Distinct(attempts) && Doomed(blocks, end, attempts)
  }

  lemma {:induction false} SameAttempt(attempts: seq<Attempt>, a: Attempt, b: Attempt)
    requires Distinct(attempts) && a in attempts && b in attempts && a.t.id == b.t.id
    ensures a == b
  {
    var i :| 0 <= i < |attempts| && attempts[i] == a;
    var j :| 0 <= j < |attempts| && attempts[j] == b;
  }

  /** A nonzero leftover block was written by an attempt and says so. */
  lemma {:induction false} Origin(blocks: seq<Block>, q: nat, end: nat, attempts: seq<Attempt>) returns (a: Attempt)
    requires Leftovers(blocks, end, attempts) && end <= q < |blocks| && blocks[q] != Zero
    ensures a in attempts && Holds(blocks, q, a) && BlockIs(a.t, q - a.start, blocks[q])
  {
    a :| a in attempts && Holds(blocks, q, a);
    BlockAt(a.t, q - a.start);
  }

  /** The member of attempt `a` that an item read between `pos` and `item.at` comes from. */
  ghost predicate ReadFrom(item: Item, pos: nat, a: Attempt, j: nat) {
    && j < |a.t.members|
    && item.kind.Data?
    && item.kind.txn == a.t.id
    && pos <= a.start + MainOffset(a.t.members, j) < item.at
    && (item.kind.name == a.t.members[j].name || item.kind.name == NameField(a.t.members[j].name))
  }

  /** The item, read from the place of `a`'s first member, is not that member: its
      name was cut short, or its size was lost. */
  ghost predicate FirstIsLost(item: Item, a: Attempt)
    requires a.t.members != [] && item.kind.Data?
  {
    var first := a.t.members[0];
    && !Fits(first)
    && (!NameFits(first.name) ==> item.kind.name != first.name)
    && (NameFits(first.name) ==> item.kind.name == first.name && item.bytes < SIZE_FIELD)
  }

  lemma {:induction false} NameFieldFits(name: string)
    ensures NameFits(NameField(name))
  {
    assert NameField(NameField(name)) == NameField(name);
  }

  /** A bare ustar header was written for one member, with its fields as they fit. */
  lemma {:induction false} HeadOrigin(blocks: seq<Block>, q: nat, end: nat, attempts: seq<Attempt>)
        returns (a: Attempt, j: nat)
    requires Tail(blocks, end, attempts) && end <= q < |blocks|
    requires blocks[q].Head? && blocks[q].kind.Data?
    ensures a in attempts && WellFormed(a.t) && j < |a.t.members|
    ensures q == a.start + MainOffset(a.t.members, j)
    ensures blocks[q].kind == Data(a.t.id, NameField(a.t.members[j].name))
    ensures blocks[q].bytes == SizeField(a.t.members[j].size)
  {
    a := Origin(blocks, q, end, attempts);
    hide TxBlocks, MainOffset, NameField, SizeField, WellFormed, Doomed, Leftovers;
    j :| 0 <= j < |a.t.members| && q - a.start == MainOffset(a.t.members, j)
         && blocks[q].kind == Data(a.t.id, NameField(a.t.members[j].name))
         && blocks[q].bytes == SizeField(a.t.members[j].size);
  }

  /** The first block of an extended header names one member and is followed by its header. */
  lemma {:induction false} PaxOrigin(blocks: seq<Block>, q: nat, end: nat, attempts: seq<Attempt>)
        returns (a: Attempt, j: nat)
    requires Tail(blocks, end, attempts) && end <= q < |blocks|
    requires blocks[q].Pax? && blocks[q].path.Some? && blocks[q].part == 0
    ensures a in attempts && WellFormed(a.t) && j < |a.t.members|
    ensures q == a.start + GroupOffset(a.t.members, j) + 1
    ensures q + blocks[q].parts == a.start + MainOffset(a.t.members, j)
    ensures blocks[q].path == Some(Data(a.t.id, a.t.members[j].name))
  {
    a := Origin(blocks, q, end, attempts);
    hide TxBlocks, GroupOffset, NameField, WellFormed, Doomed, Leftovers;
    j :| 0 <= j < |a.t.members| && !Fits(a.t.members[j])
         && q - a.start == GroupOffset(a.t.members, j) + 1 + blocks[q].part
         && blocks[q].parts == Parts(a.t.members[j])
         && blocks[q].path == PathRecord(a.t.id, a.t.members[j].name);
  }

  lemma {:induction false} ReadBare(blocks: seq<Block>, pos: nat, end: nat, attempts: seq<Attempt>)
        returns (a: Attempt, j: nat)
    requires Tail(blocks, end, attempts) && end <= pos < |blocks|
    requires blocks[pos].Head? && blocks[pos].kind.Data?
    ensures a in attempts && WellFormed(a.t) && ReadFrom(Item(blocks[pos].kind, blocks[pos].bytes, pos + 1), pos, a, j)
    ensures j == 0 && Beheaded(blocks, end, a) ==> FirstIsLost(Item(blocks[pos].kind, blocks[pos].bytes, pos + 1), a)
  {
    a, j := HeadOrigin(blocks, pos, end, attempts);
    NameFieldFits(a.t.members[j].name);
    hide Tail, NameField, GroupOffset, WellFormedMember;
  }

  lemma {:induction false} FirstRecord(bs: seq<Block>)
    requires ParsePax(bs).Override? && ParsePax(bs).path.Some?
    ensures bs != [] && bs[0] == Pax(ParsePax(bs).path, ParsePax(bs).size, 0, |bs|)
  {
    assert bs[0] == PaxBlocks(bs[0].path, bs[0].size, |bs|)[0];
  }

  lemma {:induction false} ReadExtended(blocks: seq<Block>, pos: nat, parts: nat, end: nat, attempts: seq<Attempt>,
        item: Item)
      returns (a: Attempt, j: nat)
    requires Tail(blocks, end, attempts) && end <= pos && pos + 1 + parts <= |blocks|
    requires pos + 1 + parts < item.at
    requires var o := ParsePax(blocks[pos + 1..pos + 1 + parts]);
             o.Override? && o.path.Some? && item.kind == o.path.value
    ensures a in attempts && WellFormed(a.t) && ReadFrom(item, pos, a, j)
    ensures j == 0 ==> !Beheaded(blocks, end, a)
  {
    hide ParsePax, Tail, MainOffset, NameField, WellFormed;
    var bs := blocks[pos + 1..pos + 1 + parts];
    FirstRecord(bs);
    assert blocks[pos + 1] == bs[0];
    a, j := PaxOrigin(blocks, pos + 1, end, attempts);
    assert pos <= a.start + MainOffset(a.t.members, j) < item.at;
    if j == 0 {
      assert pos == a.start;
    }
  }

  /** No surviving extended header can restore the size of a beheaded attempt's first member. */
  lemma {:induction false} NoBorrowedSize(blocks: seq<Block>, pos: nat, parts: nat, end: nat, a: Attempt)
    requires end <= pos && pos + 1 + parts <= |blocks| && parts >= 1
    requires WellFormed(a.t) && Beheaded(blocks, end, a)
    requires !Fits(a.t.members[0]) && NameFits(a.t.members[0].name)
    requires pos + 1 + parts <= a.start + MainOffset(a.t.members, 0)
    requires ParsePax(blocks[pos + 1..pos + 1 + parts]).Override?
    requires ParsePax(blocks[pos + 1..pos + 1 + parts]).path.None?
    ensures ParsePax(blocks[pos + 1..pos + 1 + parts]).size.None?
  {
    SizeFitsOneBlock(a.t.members[0]);
    assert MainOffset(a.t.members, 0) == 2;
    hide WellFormed, WellFormedMember, NameFits, MainOffset;
    assert pos == a.start && parts == 1;
    assert blocks[pos + 1..pos + 2][0] == blocks[pos + 1];
  }

  /** An extended header without a name leaves the name below it alone. */
  lemma {:induction false} ReadCarried(blocks: seq<Block>, pos: nat, parts: nat, end: nat, a: Attempt, j: nat,
        inner: Item, item: Item)
    requires end <= pos && pos + 1 + parts <= |blocks| && parts >= 1
    requires var o := ParsePax(blocks[pos + 1..pos + 1 + parts]);
             o.Override? && o.path.None? && item == Apply(o, inner)
    requires WellFormed(a.t) && ReadFrom(inner, pos + 1 + parts, a, j)
    requires j == 0 && Beheaded(blocks, end, a) ==> FirstIsLost(inner, a)
    ensures ReadFrom(item, pos, a, j)
    ensures j == 0 && Beheaded(blocks, end, a) ==> FirstIsLost(item, a)
  {
    hide ParsePax, WellFormed, NameField, Beheaded, MainOffset;
    if j == 0 && Beheaded(blocks, end, a) && NameFits(a.t.members[0].name) {
      NoBorrowedSize(blocks, pos, parts, end, a);
    }
  }

  /** Every item read behind the log belongs to one member of one attempt, and the
      first member of a beheaded attempt is never read as itself. */
  lemma {:induction false} ReadLeftover(blocks: seq<Block>, pos: nat, end: nat, attempts: seq<Attempt>)
        returns (a: Attempt, j: nat)
    requires Tail(blocks, end, attempts) && end <= pos
    requires HeaderAvailable(blocks, pos) == Present && NextItem(blocks, pos).Some?
    requires NextItem(blocks, pos).value.kind.Data?
    ensures a in attempts && WellFormed(a.t) && ReadFrom(NextItem(blocks, pos).value, pos, a, j)
    ensures j == 0 && Beheaded(blocks, end, a) ==> FirstIsLost(NextItem(blocks, pos).value, a)
    decreases |blocks| - pos
  {
    hide Tail, WellFormed, ReadFrom, FirstIsLost, Beheaded;
    if blocks[pos].Head? {
      a, j := ReadBare(blocks, pos, end, attempts);
    } else {
      var parts := blocks[pos].parts;
      var next := pos + 1 + parts;
      var o := ParsePax(blocks[pos + 1..next]);
      ItemIsAhead(blocks, next);
      var item := NextItem(blocks, pos).value;
      assert item == Apply(o, NextItem(blocks, next).value);
      if o.path.Some? {
        a, j := ReadExtended(blocks, pos, parts, end, attempts, item);
      } else {
        a, j := ReadLeftover(blocks, next, end, attempts);
        ExtendedAtLeastOne(blocks, pos, end, attempts);
        ReadCarried(blocks, pos, parts, end, a, j, NextItem(blocks, next).value, item);
      }
    }
  }

  lemma {:induction false} ExtendedAtLeastOne(blocks: seq<Block>, pos: nat, end: nat, attempts: seq<Attempt>)
    requires Tail(blocks, end, attempts) && end <= pos < |blocks| && blocks[pos].Ext?
    ensures blocks[pos].parts >= 1
  {
    var a := Origin(blocks, pos, end, attempts);
  }
}
