/** The artifact archive as a file of typed 512-byte blocks. */
module ArchiveFormat {
  // A transaction is a run of DATA members followed by one COMMIT member. A member is a ustar header and
  // its padded payload. A logical name or a size that does not fit the ustar fields is carried by an
  // extended header ("pax Interchange Format" of IEEE Std 1003.1-2001) in front of a header whose own
  // name is cut short and whose own size is zero.
  //
  // Two idealisations are built into the block type: a digest stands for the bytes it was computed over,
  // and a payload block never parses as a header.

  import opened ArchiveLengths
  import opened Options

  datatype Digest = Digest(size: nat, content: seq<nat>)

  datatype Kind = Data(txn: nat, name: string) | Commit(txn: nat)

  datatype Row = Row(name: string, bytes: nat, sha: Digest)

  /** A commit record; `bytes` is the length of its encoding. */
  datatype Record = Record(txn: nat, replace: bool, rows: seq<Row>, bytes: nat)

  datatype Block =
    | Zero
    | Raw(content: nat)
    | Ext(parts: nat)
    | Pax(path: Option<Kind>, size: Option<nat>, part: nat, parts: nat)
    | Head(kind: Kind, bytes: nat)
    | Rec(record: Record, part: nat)

  /** The number of blocks that hold `bytes` bytes. */
  function Units(bytes: nat): nat {
    (bytes + 511) / 512
  }

  // ----- what the writer emits -----

  /** A source: its size, and its payload block by block (0 is the all-zero block). */
  datatype Member = Member(name: string, size: nat, content: seq<nat>)

  datatype Transaction = Transaction(id: nat, replace: bool, members: seq<Member>)

  function SizeField(size: nat): nat {
    if size < SIZE_FIELD then size else 0
  }

  predicate Fits(m: Member) {
    NameFits(m.name) && m.size < SIZE_FIELD
  }

  function Payload(content: seq<nat>): (p: seq<Block>) {
    seq(|content|, i requires 0 <= i < |content| => if content[i] == 0 then Zero else Raw(content[i]))
  }

  function PathRecord(txn: nat, name: string): Option<Kind> {
    if NameFits(name) then None else Some(Data(txn, name))
  }

  function SizeRecord(size: nat): Option<nat> {
    if size < SIZE_FIELD then None else Some(size)
  }

  function PaxBlocks(path: Option<Kind>, size: Option<nat>, parts: nat): seq<Block> {
    seq(parts, i requires 0 <= i => Pax(path, size, i, parts))
  }

  /** The blocks of the member's extended header, if it needs one. */
  function Parts(m: Member): (parts: nat)
    ensures !Fits(m) ==> parts >= 1
  {
    Units(PaxLength(m.name, m.size))
  }

  /** The member's extended header is more than a scan accepts. */
  predicate Oversized(m: Member) {
    !Fits(m) && Parts(m) * 512 > MAX_METADATA
  }

  function HeaderBlocks(txn: nat, m: Member): (bs: seq<Block>) {
    (if Fits(m) then []
     else [Ext(Parts(m))] + PaxBlocks(PathRecord(txn, m.name), SizeRecord(m.size), Parts(m)))
    + [Head(Data(txn, NameField(m.name)), SizeField(m.size))]
  }

  function HeaderLength(m: Member): nat {
    if Fits(m) then 1 else 2 + Parts(m)
  }

  function MemberBlocks(txn: nat, m: Member): seq<Block> {
    HeaderBlocks(txn, m) + Payload(m.content)
  }

  function DataBlocks(txn: nat, ms: seq<Member>): seq<Block> {
    if ms == [] then [] else MemberBlocks(txn, ms[0]) + DataBlocks(txn, ms[1..])
  }

  function Rows(ms: seq<Member>): (rows: seq<Row>)
    ensures |rows| == |ms|
    ensures forall i | 0 <= i < |ms| :: rows[i] == Row(ms[i].name, ms[i].size, Digest(ms[i].size, ms[i].content))
  {
    seq(|ms|, i requires 0 <= i < |ms| => Row(ms[i].name, ms[i].size, Digest(ms[i].size, ms[i].content)))
  }

  /** The bytes of the rows of these members, with a comma between two. */
  function RowsLength(ms: seq<Member>): nat {
    if ms == [] then 0
    else RowLength(ms[0].name, ms[0].size) + (if |ms| > 1 then 1 else 0) + RowsLength(ms[1..])
  }

  function CommitBytes(t: Transaction): (bytes: nat)
    ensures bytes > 0
  {
    FrameLength(t.replace) + RowsLength(t.members)
  }

  /** The commit record may be written and read. */
  predicate InBudget(t: Transaction) {
    CommitBytes(t) <= MAX_METADATA
  }

  function RecordOf(t: Transaction): Record {
    Record(t.id, t.replace, Rows(t.members), CommitBytes(t))
  }

  function RecordBlocks(r: Record): seq<Block> {
    seq(Units(r.bytes), i requires 0 <= i => Rec(r, i))
  }

  function CommitBlocks(t: Transaction): seq<Block> {
    [Head(Commit(t.id), CommitBytes(t))] + RecordBlocks(RecordOf(t))
  }

  function TxBlocks(t: Transaction): seq<Block> {
    DataBlocks(t.id, t.members) + CommitBlocks(t)
  }

  predicate WellFormedMember(m: Member) {
    |m.content| == Units(m.size) && m.size < SIZE_LIMIT
  }

  predicate WellFormed(t: Transaction) {
    && t.members != []
    && (forall m <- t.members :: WellFormedMember(m))
    && (forall i, j | 0 <= i < j < |t.members| :: t.members[i].name != t.members[j].name)
  }

  /** A header that carries only a size is one block. */
  lemma {:induction false} SizeFitsOneBlock(m: Member)
    requires WellFormedMember(m) && NameFits(m.name) && !Fits(m)
    ensures Parts(m) == 1
  {
    hide NameFits, LineLength, Digits;
    SizeLineIsShort(m.size);
  }

  lemma {:induction false} RowInRows(ms: seq<Member>, m: Member)
    requires m in ms
    ensures RowLength(m.name, m.size) <= RowsLength(ms)
  {
    hide RowLength;
    if m != ms[0] {
      RowInRows(ms[1..], m);
    }
  }

  /** A transaction whose record is within the budget has no header over it. */
  lemma {:induction false} HeadersInBudget(t: Transaction, m: Member)
    requires m in t.members && WellFormedMember(m) && InBudget(t)
    ensures !Oversized(m)
  {
    hide PaxLength, RowLength, RowsLength, NameFits;
    RowOutgrowsHeader(m.name, m.size);
    RowInRows(t.members, m);
  }

  // ----- what the scanner reads -----

  datatype Slot = Slot(offset: nat, bytes: nat)

  datatype Entry = Entry(offset: nat, bytes: nat, sha: Digest, txn: nat)

  datatype Item = Item(kind: Kind, bytes: nat, at: nat)

  datatype Probe = Absent | Corrupt | Present

  datatype Override = Torn | Override(path: Option<Kind>, size: Option<nat>)

  /** Is there a complete header at `pos`, no header, or a broken one? */
  function HeaderAvailable(blocks: seq<Block>, pos: nat): Probe
    decreases |blocks| - pos
  {
    if pos >= |blocks| || blocks[pos] == Zero then Absent
    else match blocks[pos]
      case Head(_, _) => Present
      case Ext(parts) =>
        if parts * 512 > MAX_METADATA then Corrupt
        else if pos + 1 + parts > |blocks| then Absent
        else HeaderAvailable(blocks, pos + 1 + parts)
      case _ => Corrupt
  }

  /** The records of an extended header; a leading zero block holds none. */
  function ParsePax(bs: seq<Block>): Override {
    if bs == [] || bs[0] == Zero then Override(None, None)
    else if bs[0].Pax? && bs == PaxBlocks(bs[0].path, bs[0].size, |bs|) then Override(bs[0].path, bs[0].size)
    else Torn
  }

  function Apply(o: Override, item: Item): Item
    requires o.Override?
  {
    Item(if o.path.Some? then o.path.value else item.kind, if o.size.Some? then o.size.value else item.bytes, item.at)
  }

  /** The member whose headers start at `pos`; `None` when an extended header is torn. */
  function NextItem(blocks: seq<Block>, pos: nat): Option<Item>
    requires HeaderAvailable(blocks, pos) == Present
    decreases |blocks| - pos
  {
    match blocks[pos]
    case Head(kind, bytes) => Some(Item(kind, bytes, pos + 1))
    case Ext(parts) =>
      var o := ParsePax(blocks[pos + 1..pos + 1 + parts]);
      if o.Torn? then None
      else
        var inner := NextItem(blocks, pos + 1 + parts);
        if inner.None? then None else Some(Apply(o, inner.value))
  }

  lemma {:induction false} ItemIsAhead(blocks: seq<Block>, pos: nat)
    requires HeaderAvailable(blocks, pos) == Present
    ensures NextItem(blocks, pos).Some? ==> pos < NextItem(blocks, pos).value.at <= |blocks|
    decreases |blocks| - pos
  {
    if blocks[pos].Ext? {
      ItemIsAhead(blocks, pos + 1 + blocks[pos].parts);
    }
  }

  datatype ScanState = ScanState(entries: map<string, Entry>, pending: map<string, Slot>, txn: Option<nat>, end: nat)

  datatype ScanResult = Ok(entries: map<string, Entry>, end: nat) | ArchiveError

  const Fresh := ScanState(map[], map[], None, 0)

  /** The commit payload parses exactly when it is one whole record. */
  function ParseRecord(blocks: seq<Block>, item: Item): Option<Record>
    requires item.at + Units(item.bytes) <= |blocks|
  {
    var bs := blocks[item.at..item.at + Units(item.bytes)];
    if bs != [] && bs[0].Rec? && bs[0].record.bytes == item.bytes && bs == RecordBlocks(bs[0].record)
    then Some(bs[0].record)
    else None
  }

  /** The record names the open transaction and lists exactly what it staged. */
  predicate Accepts(record: Record, txn: nat, st: ScanState) {
    && st.txn == Some(record.txn)
    && txn == record.txn
    && |record.rows| == |st.pending|
    && (forall i, j | 0 <= i < j < |record.rows| :: record.rows[i].name != record.rows[j].name)
    && (forall row <- record.rows ::
          && row.name in st.pending
          && row.bytes == st.pending[row.name].bytes
          && (record.replace || row.name !in st.entries))
  }

  function Published(rows: seq<Row>, pending: map<string, Slot>, txn: nat): map<string, Entry>
    requires forall row <- rows :: row.name in pending
  {
    if rows == [] then map[]
    else
      var row := rows[|rows| - 1];
      Published(rows[..|rows| - 1], pending, txn)
        [row.name := Entry(pending[row.name].offset, pending[row.name].bytes, row.sha, txn)]
  }

  datatype Step = Stop | Fail | Go(pos: nat, st: ScanState)

  function DataStep(item: Item, st: ScanState): Step
    requires item.kind.Data?
  {
    if (st.txn.Some? && st.txn.value != item.kind.txn) || item.kind.name in st.pending then Fail
    else Go(item.at + Units(item.bytes),
            st.(txn := Some(item.kind.txn), pending := st.pending[item.kind.name := Slot(item.at, item.bytes)]))
  }

  function CommitStep(blocks: seq<Block>, item: Item, st: ScanState): Step
    requires item.kind.Commit? && item.at + Units(item.bytes) <= |blocks|
  {
    if item.bytes > MAX_METADATA then Fail
    else
      var parsed := ParseRecord(blocks, item);
      if parsed.None? || !Accepts(parsed.value, item.kind.txn, st) then Fail
      else
        var past := item.at + Units(item.bytes);
        Go(past, ScanState(st.entries + Published(parsed.value.rows, st.pending, item.kind.txn), map[], None, past))
  }

  function ScanStep(blocks: seq<Block>, pos: nat, st: ScanState): (r: Step)
    ensures r.Go? ==> pos < r.pos <= |blocks|
  {
    match HeaderAvailable(blocks, pos)
    case Absent => Stop
    case Corrupt => Fail
    case Present =>
      ItemIsAhead(blocks, pos);
      var item := NextItem(blocks, pos);
      if item.None? then Fail
      else if item.value.at + Units(item.value.bytes) > |blocks| then Stop
      else if item.value.kind.Data? then DataStep(item.value, st)
      else CommitStep(blocks, item.value, st)
  }

  function ScanFrom(blocks: seq<Block>, pos: nat, st: ScanState): ScanResult
    decreases |blocks| - pos
  {
    match ScanStep(blocks, pos, st)
    case Stop => Ok(st.entries, st.end)
    case Fail => ArchiveError
    case Go(next, st') => ScanFrom(blocks, next, st')
  }

  function Scan(blocks: seq<Block>): ScanResult {
    ScanFrom(blocks, 0, Fresh)
  }
}
