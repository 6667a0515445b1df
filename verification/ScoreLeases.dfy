/** Joining leases: every frame reads as it did from its own lease. */
module ScoreLeases {
  import opened ScoreIndex
  import opened ScoreJoin

  // Order of the pieces

  function Insert(l: Lease, sorted: seq<Lease>): seq<Lease> {
    if sorted == [] || l.first <= sorted[0].first then [l] + sorted
    else [sorted[0]] + Insert(l, sorted[1..])
  }

  /** The leases sorted by first frame; equal keys keep their order. */
  function Sorted(pieces: seq<Lease>): seq<Lease> {
    if pieces == [] then [] else Insert(pieces[0], Sorted(pieces[1..]))
  }

  lemma {:induction false} InsertKeeps(l: Lease, sorted: seq<Lease>)
    ensures multiset(Insert(l, sorted)) == multiset(sorted) + multiset{l}
    ensures forall k :: k in Insert(l, sorted) <==> k == l || k in sorted
  {
    if sorted != [] && l.first > sorted[0].first {
      assert sorted == [sorted[0]] + sorted[1..];
      InsertKeeps(l, sorted[1..]);
    }
  }

  lemma {:induction false} SortKeeps(pieces: seq<Lease>)
    ensures multiset(Sorted(pieces)) == multiset(pieces)
    ensures forall k :: k in Sorted(pieces) <==> k in pieces
  {
    if pieces != [] {
      assert pieces == [pieces[0]] + pieces[1..];
      SortKeeps(pieces[1..]);
      InsertKeeps(pieces[0], Sorted(pieces[1..]));
    }
  }

  predicate Reaches(l: Lease, z: int) {
    l.first <= z < l.first + l.store.shape.depth
  }

  function Owners(pieces: seq<Lease>, z: int): nat {
    if pieces == [] then 0 else (if Reaches(pieces[0], z) then 1 else 0) + Owners(pieces[1..], z)
  }

  predicate Open(pieces: seq<Lease>) {
    forall l | l in pieces :: Opens(l.store)
  }

  lemma {:induction false} InsertFrame(l: Lease, sorted: seq<Lease>, z: int)
    requires Opens(l.store) && Open(sorted) && Owners([l] + sorted, z) <= 1
    ensures Open(Insert(l, sorted))
    ensures Owners(Insert(l, sorted), z) == Owners([l] + sorted, z)
    ensures PieceFrame(Insert(l, sorted), z) == PieceFrame([l] + sorted, z)
  {
    hide Opens, Frame;
    InsertKeeps(l, sorted);
    assert ([l] + sorted)[1..] == sorted;
    if sorted != [] && l.first > sorted[0].first {
      var rest := sorted[1..];
      assert ([l] + rest)[1..] == rest;
      InsertFrame(l, rest, z);
      assert ([sorted[0]] + Insert(l, rest))[1..] == Insert(l, rest);
    }
  }

  lemma {:induction false} NoOwnerNoFrame(pieces: seq<Lease>, z: int)
    requires Open(pieces) && Owners(pieces, z) == 0
    ensures PieceFrame(pieces, z) == []
  {
    hide Opens;
    if pieces != [] {
      NoOwnerNoFrame(pieces[1..], z);
    }
  }

  lemma {:induction false} SortFrame(pieces: seq<Lease>, z: int)
    requires Open(pieces) && Owners(pieces, z) <= 1
    ensures Open(Sorted(pieces)) && Owners(Sorted(pieces), z) == Owners(pieces, z)
    ensures PieceFrame(Sorted(pieces), z) == PieceFrame(pieces, z)
  {
    hide Opens, Frame;
    SortKeeps(pieces);
    if pieces != [] {
      var l, rest := pieces[0], pieces[1..];
      SortFrame(rest, z);
      assert ([l] + Sorted(rest))[1..] == Sorted(rest);
      InsertFrame(l, Sorted(rest), z);
    }
  }

  lemma {:induction false} InsertOwners(l: Lease, sorted: seq<Lease>, z: int)
    ensures Owners(Insert(l, sorted), z) == Owners(sorted, z) + (if Reaches(l, z) then 1 else 0)
  {
    assert ([l] + sorted)[1..] == sorted;
    if sorted != [] && l.first > sorted[0].first {
      InsertOwners(l, sorted[1..], z);
      assert ([sorted[0]] + Insert(l, sorted[1..]))[1..] == Insert(l, sorted[1..]);
    }
  }

  lemma {:induction false} SortOwners(pieces: seq<Lease>, z: int)
    ensures Owners(Sorted(pieces), z) == Owners(pieces, z)
  {
    if pieces != [] {
      SortOwners(pieces[1..], z);
      InsertOwners(pieces[0], Sorted(pieces[1..]), z);
    }
  }

  /** Gap-free leases give every frame of the view exactly one owner. */
  lemma {:induction false} CoverOwners(leases: seq<Lease>, from: nat, native: Shape, z: int)
    requires Covers(leases, from, native)
    ensures Owners(leases, z) == if from <= z < native.depth then 1 else 0
    ensures from <= native.depth
  {
    if leases != [] {
      CoverOwners(leases[1..], from + leases[0].store.shape.depth, native, z);
    }
  }

  lemma {:induction false} OwnerFrame(pieces: seq<Lease>, z: int, l: Lease)
    requires Open(pieces) && Owners(pieces, z) <= 1 && l in pieces && Reaches(l, z)
    ensures PieceFrame(pieces, z) == Frame(l.store, z - l.first)
  {
    hide Opens, Frame;
    if pieces[0] == l {
      NoOwnerNoFrame(pieces[1..], z);
    } else {
      OwnerSomewhere(pieces[1..], z, l);
      OwnerFrame(pieces[1..], z, l);
    }
  }

  lemma {:induction false} OwnerSomewhere(pieces: seq<Lease>, z: int, l: Lease)
    requires l in pieces && Reaches(l, z)
    ensures Owners(pieces, z) >= 1
  {
    if pieces[0] != l {
      OwnerSomewhere(pieces[1..], z, l);
    }
  }

  // The joined store

  lemma {:induction false} OutsideFrame(s: Store, z: int)
    requires Opens(s) && !(0 <= z < s.shape.depth)
    ensures Frame(s, z) == []
  {
    OpenIsBacked(s);
    NoFrame(s.rows, s.payload, z);
  }

  /** The first lease's part of the joined index yields what the lease yields. */
  lemma {:induction false} FirstPart(l: Lease, pre: seq<nat>, post: seq<nat>, z: int)
    requires Opens(l.store)
    ensures Backed(Rebase(l.store.rows, l.first, |pre|), pre + l.store.payload + post)
    ensures FrameOf(Rebase(l.store.rows, l.first, |pre|), pre + l.store.payload + post, z)
      == if Reaches(l, z) then Frame(l.store, z - l.first) else []
  {
    OpenIsBacked(l.store);
    hide Opens, Backed, Rebase;
    RebaseKeepsFrame(l.store.rows, l.store.payload, pre, post, l.first, z);
    if !Reaches(l, z) {
      OutsideFrame(l.store, z - l.first);
    }
  }

  lemma {:induction false} JoinedFrames(leases: seq<Lease>, from: nat, pre: seq<nat>, native: Shape, z: int)
    requires AllOpen(leases, native) && Covers(leases, from, native)
    ensures Backed(RowsOf(leases, |pre|), pre + PayloadOf(leases))
    ensures FrameOf(RowsOf(leases, |pre|), pre + PayloadOf(leases), z) == PieceFrame(leases, z)
  {
    hide Opens, Backed, FrameOf, Rebase, Frame;
    if leases == [] {
      NoRecords(pre + PayloadOf(leases), z);
    } else {
      var l, rest := leases[0], leases[1..];
      var own, after := l.store.payload, PayloadOf(rest);
      assert pre + PayloadOf(leases) == pre + own + after;
      JoinedFrames(rest, from + l.store.shape.depth, pre + own, native, z);
      FirstPart(l, pre, after, z);
      FrameJoin(Rebase(l.store.rows, l.first, |pre|), RowsOf(rest, |pre| + |own|), pre + own + after, z);
    }
  }

  lemma {:induction false} NoRecords(payload: seq<nat>, z: int)
    ensures Backed([], payload) && FrameOf([], payload, z) == []
  {
  }

  /** For every accepted set of leases, in whatever order they are listed: the joined store opens;
      a frame of it is what the listed pieces together yield there, and what its owner yields at
      the frame's place in the lease. */
  lemma {:induction false} JoinPreservesReads(pieces: seq<Lease>, native: Shape, z: int)
    requires AllOpen(pieces, native) && Covers(Sorted(pieces), 0, native) && 0 <= z < native.depth
    ensures Opens(Joined(Sorted(pieces), native))
    ensures Frame(Joined(Sorted(pieces), native), z) == PieceFrame(pieces, z)
    ensures forall l | l in pieces && Reaches(l, z) ::
            Frame(Joined(Sorted(pieces), native), z) == Frame(l.store, z - l.first)
    ensures exists l :: l in pieces && Reaches(l, z)
  {
    hide Opens, Covers;
    var leases := Sorted(pieces);
    SortKeeps(pieces);
    CoverOwners(leases, 0, native, z);
    SortOwners(pieces, z);
    SortFrame(pieces, z);
    JoinedOpens(leases, native);
    assert [] + PayloadOf(leases) == PayloadOf(leases);
    JoinedFrames(leases, 0, [], native, z);
    forall l | l in pieces && Reaches(l, z)
      ensures PieceFrame(pieces, z) == Frame(l.store, z - l.first)
    {
      OwnerFrame(pieces, z, l);
    }
    SomeOwner(pieces, z);
  }

  lemma {:induction false} JoinedOpens(leases: seq<Lease>, native: Shape)
    requires AllOpen(leases, native) && Covers(leases, 0, native)
    ensures Opens(Joined(leases, native))
  {
    JoinedIsValid(leases, 0, 0, native);
  }

  lemma {:induction false} SomeOwner(pieces: seq<Lease>, z: int)
    requires Owners(pieces, z) >= 1
    ensures exists l :: l in pieces && Reaches(l, z)
  {
    if !Reaches(pieces[0], z) {
      SomeOwner(pieces[1..], z);
      var l :| l in pieces[1..] && Reaches(l, z);
      assert l in pieces;
    }
  }
}
