/** A joined store is a lease like any other. */
module ScoreRejoin {
  import opened ScoreIndex
  import opened ScoreJoin
  import opened ScoreLeases
  import opened ScoreLeaseWriter

  /** Leases as preflight and the index check leave them, all of one block size. */
  predicate Sound(leases: seq<Lease>, native: Shape, block: nat) {
    forall l | l in leases ::
      && l.store.shape.height == native.height && l.store.shape.width == native.width && l.store.shape.depth > 0
      && 0 < block == l.blockSize && IndexOk(l) && (l.count > 0 <==> l.known > 0) && l.known <= Volume(l.store.shape)
  }

  lemma {:induction false} SoundIsOpen(leases: seq<Lease>, native: Shape, block: nat)
    requires Sound(leases, native, block)
    ensures AllOpen(leases, native)
  {
    hide IndexOk, Opens, Volume;
    forall l | l in leases
      ensures Opens(l.store)
    {
      IndexOkOpens(l);
    }
  }

  lemma {:induction false} SoundRest(leases: seq<Lease>, native: Shape, block: nat)
    requires leases != [] && Sound(leases, native, block)
    ensures Sound(leases[1..], native, block) && Sound([leases[0]], native, block)
  {
    hide IndexOk, Volume;
  }

  // The totals

  lemma {:induction false} CountsAreRows(leases: seq<Lease>, base: nat, native: Shape, block: nat)
    requires Sound(leases, native, block)
    ensures |RowsOf(leases, base)| == Counts(leases) && (Counts(leases) > 0 <==> Knowns(leases) > 0)
  {
    hide Rebase, Volume, Chained, InCells, KeysRise, Area, EndOf;
    if leases != [] {
      SoundRest(leases, native, block);
      assert leases[0] in leases;
      CountsAreRows(leases[1..], base + |leases[0].store.payload|, native, block);
    }
  }

  lemma {:induction false} TimesAdds(a: nat, b: nat, c: nat)
    ensures Times(a + b, c) == Times(a, c) + Times(b, c)
  {
  }

  lemma {:induction false} KnownsFit(leases: seq<Lease>, from: nat, native: Shape, block: nat)
    requires Sound(leases, native, block) && Covers(leases, from, native)
    ensures from <= native.depth && Knowns(leases) <= Times(native.depth - from, Times(native.height, native.width))
  {
    hide IndexOk;
    if leases != [] {
      var l := leases[0];
      assert l in leases;
      SoundRest(leases, native, block);
      KnownsFit(leases[1..], from + l.store.shape.depth, native, block);
      TimesAdds(native.depth - from - l.store.shape.depth, l.store.shape.depth, Times(native.height, native.width));
    }
  }

  lemma {:induction false} AreaRebased(rows: seq<Row>, dz: nat, base: nat)
    ensures Area(Rebase(rows, dz, base)) == Area(rows)
  {
    if rows != [] {
      var init := rows[..|rows| - 1];
      assert Rebase(rows, dz, base)[..|rows| - 1] == Rebase(init, dz, base);
      AreaRebased(init, dz, base);
    }
  }

  lemma {:induction false} AreaCovers(leases: seq<Lease>, base: nat, native: Shape, block: nat)
    requires Sound(leases, native, block)
    ensures Knowns(leases) <= Area(RowsOf(leases, base))
  {
    hide Rebase, Volume, Area, KeysRise, InCells, Chained;
    if leases != [] {
      var l := leases[0];
      assert l in leases;
      SoundRest(leases, native, block);
      AreaCovers(leases[1..], base + |l.store.payload|, native, block);
      AreaRebased(l.store.rows, l.first, base);
      AreaJoin(Rebase(l.store.rows, l.first, base), RowsOf(leases[1..], base + |l.store.payload|));
    }
  }

  // Cells and keys

  lemma {:induction false} RebasedKeys(rows: seq<Row>, dz: nat, base: nat, block: nat)
    requires block > 0 && KeysRise(rows, block)
    ensures KeysRise(Rebase(rows, dz, base), block)
  {
    forall i | 0 < i < |rows|
      ensures KeyRises(Rebase(rows, dz, base)[i - 1], Rebase(rows, dz, base)[i], block)
    {
      assert KeyRises(rows[i - 1], rows[i], block);
    }
  }

  lemma {:induction false} RebasedCells(rows: seq<Row>, s: Shape, t: Shape, dz: nat, base: nat, block: nat)
    requires block > 0 && InCells(rows, s, block)
    requires dz + s.depth <= t.depth && s.height == t.height && s.width == t.width
    ensures InCells(Rebase(rows, dz, base), t, block)
    ensures forall r | r in Rebase(rows, dz, base) :: r.z < dz + s.depth
  {
    var out := Rebase(rows, dz, base);
    forall r | r in out
      ensures RowInside(r, t) && OneCell(r, block) && r.z < dz + s.depth
    {
      var i :| 0 <= i < |out| && out[i] == r;
      assert rows[i] in rows;
    }
  }

  /** The last record of one part comes before the first of the next, which lies in a later frame. */
  lemma {:induction false} PartsRise(a: seq<Row>, b: seq<Row>, until: nat, block: nat)
    requires block > 0 && KeysRise(a, block) && KeysRise(b, block)
    requires (forall r | r in a :: r.z < until) && FramesRise(b, until)
    ensures KeysRise(a + b, block)
  {
    hide KeysRise;
    if a != [] && b != [] {
      assert a[|a| - 1] in a;
    }
    KeysJoin(a, b, block);
  }

  lemma {:induction false} LeaseCells(l: Lease, from: nat, base: nat, native: Shape, block: nat)
    requires 0 < block == l.blockSize && IndexOk(l) && from + l.store.shape.depth <= native.depth
    requires l.store.shape.height == native.height && l.store.shape.width == native.width
    ensures var rows := Rebase(l.store.rows, from, base);
      && InCells(rows, native, block) && KeysRise(rows, block)
      && forall r | r in rows :: r.z < from + l.store.shape.depth
  {
    hide InCells, KeysRise, Chained, Area, EndOf, Rebase;
    RebasedKeys(l.store.rows, from, base, block);
    RebasedCells(l.store.rows, l.store.shape, native, from, base, block);
  }

  lemma {:induction false} LaterPart(leases: seq<Lease>, from: nat, base: nat, native: Shape, block: nat)
    requires Sound(leases, native, block) && Covers(leases, from, native)
    ensures FramesRise(RowsOf(leases, base), from)
  {
    hide *;
    SoundIsOpen(leases, native, block);
    JoinedIsValid(leases, from, base, native);
  }

  lemma {:induction false} JoinedCells(leases: seq<Lease>, from: nat, base: nat, native: Shape, block: nat)
    requires Sound(leases, native, block) && Covers(leases, from, native) && block > 0
    ensures InCells(RowsOf(leases, base), native, block) && KeysRise(RowsOf(leases, base), block)
  {
    hide IndexOk, Rebase, InCells, KeysRise, FramesRise, Volume;
    if leases == [] {
      NoCells(native, block);
    } else {
      var l, rest := leases[0], leases[1..];
      assert l in leases;
      SoundRest(leases, native, block);
      var until, next := from + l.store.shape.depth, base + |l.store.payload|;
      JoinedCells(rest, until, next, native, block);
      LaterPart(rest, until, next, native, block);
      LeaseCells(l, from, base, native, block);
      PartsRise(Rebase(l.store.rows, from, base), RowsOf(rest, next), until, block);
      CellsJoin(Rebase(l.store.rows, from, base), RowsOf(rest, next), native, block);
    }
  }

  lemma {:induction false} NoCells(native: Shape, block: nat)
    requires block > 0
    ensures InCells([], native, block) && KeysRise([], block)
  {
  }

  // The theorem

  lemma {:induction false} PiecesAreSound(pieces: seq<Lease>, native: Shape)
    requires Preflight(pieces, native) && AllGood(pieces)
    ensures Sorted(pieces) != [] && Sound(Sorted(pieces), native, Sorted(pieces)[0].blockSize)
    ensures 1 <= Sorted(pieces)[0].blockSize <= 65535
  {
    hide IndexOk, Covers, Volume, Sorted, PayloadOf;
    SortKeeps(pieces);
    assert pieces[0] in Sorted(pieces);
    assert Sorted(pieces)[0] in pieces;
  }

  /** The joined store with its manifest passes the very checks that its pieces had to pass, so it can be
      joined in turn; joined alone it is left as it is. */
  lemma {:induction false} JoinIsLease(pieces: seq<Lease>, native: Shape)
    requires Preflight(pieces, native) && AllGood(pieces)
    ensures Sorted(pieces) != []
    ensures var l := JoinedLease(Sorted(pieces), native);
      Preflight([l], native) && AllGood([l]) && JoinedLease(Sorted([l]), native) == l
  {
    hide IndexOk, Covers, RowsOf, PayloadOf, Sorted, Rebase, Area, InCells, KeysRise, Chained, EndOf, Sound, Opens;
    PiecesAreSound(pieces, native);
    var leases := Sorted(pieces);
    var block, l := leases[0].blockSize, JoinedLease(leases, native);
    CountsAreRows(leases, 0, native, block);
    KnownsFit(leases, 0, native, block);
    AreaCovers(leases, 0, native, block);
    JoinedCells(leases, 0, 0, native, block);
    SoundIsOpen(leases, native, block);
    JoinedIsValid(leases, 0, 0, native);
    AllIsOk(l);
    Alone(l, native);
  }

  lemma {:induction false} AllIsOk(l: Lease)
    requires l.blockSize > 0
    requires var rows := l.store.rows;
      && |rows| == l.count && Chained(rows, 0) && EndOf(rows, 0) == |l.store.payload|
      && InCells(rows, l.store.shape, l.blockSize) && KeysRise(rows, l.blockSize) && l.intact && l.known <= Area(rows)
    ensures IndexOk(l)
  {
  }

  lemma {:induction false} Alone(l: Lease, native: Shape)
    requires l.first == 0 && l.store.shape == native && l.intact
    ensures Sorted([l]) == [l] && Covers([l], 0, native)
    ensures PayloadOf([l]) == l.store.payload && RowsOf([l], 0) == l.store.rows
    ensures JoinedLease([l], native) == l
  {
    OneLease(l);
    assert Rebase(l.store.rows, 0, 0) == l.store.rows;
  }

  lemma {:induction false} OneLease(l: Lease)
    ensures Sorted([l]) == [l] && PayloadOf([l]) == l.store.payload
    ensures RowsOf([l], 0) == Rebase(l.store.rows, l.first, 0)
    ensures Counts([l]) == l.count && Knowns([l]) == l.known
    ensures forall from: nat, native :: Covers([l], from, native) <==>
              l.first == from && from + l.store.shape.depth == native.depth
  {
    hide Rebase;
    assert [l][1..] == [];
    assert l.store.payload + [] == l.store.payload;
    assert Rebase(l.store.rows, l.first, 0) + [] == Rebase(l.store.rows, l.first, 0);
  }
}
