/** The in-place cleanup of one prediction slice. */
module SliceCleanup {
  import opened ComponentFilter
  import opened Grid
  import opened Options
  import opened Planes

  function ScoreMap(a: array2<nat>): map<Cell, nat>
    reads a
  {
    map c: Cell | c in Cells(PlaneOf(a)) :: a[c.0, c.1]
  }

  function ScoresOf(a: Option<array2<nat>>): Option<map<Cell, nat>>
    reads if a.Some? then {a.value} else {}
  {
    if a.Some? then Some(ScoreMap(a.value)) else None
  }

  /** Squared distance to the nearest background cell; on a plane without background the
      distances saturate above the radius asked for. */
  ghost predicate IsDistance(r: Rect, m: set<Cell>, dist: map<Cell, nat>, r2: nat) {
    && dist.Keys == Cells(r) && m <= Cells(r)
    && (forall c, b | c in m && b in Cells(r) - m :: dist[c] <= Square(c, b))
    && (forall c | c in m :: dist[c] >= r2 || exists b :: b in Cells(r) - m && dist[c] == Square(c, b))
  }

  lemma {:induction false} DistanceDecides(r: Rect, m: set<Cell>, dist: map<Cell, nat>, r2: nat)
    requires IsDistance(r, m, dist, r2) && m <= Cells(r)
    ensures dist.Keys == Cells(r) && Passing(m, dist, r2) == Deep(r, m, r2)
  {
    forall c | c in m
      ensures dist[c] >= r2 <==> Far(r, m, c, r2)
    {
      if dist[c] < r2 {
        var b :| b in Cells(r) - m && dist[c] == Square(c, b);
      }
    }
  }

  method FilterByMaximum(labels: map<Cell, nat>, count: nat, values: map<Cell, nat>, r: Rect, t: nat, m: set<Cell>)
    returns (n: set<Cell>)
    requires r.y0 <= r.y1 && r.x0 <= r.x1
    requires Labels(labels, count, r, m, true) && values.Keys == Cells(r)
    ensures n == Keep(m, true, Passing(m, values, t))
  {
    var passes := PassingLabels(labels, count, values, r, t, m);
    n := set c | c in Cells(r) && passes[labels[c]];
  }

  /** Zeroes the plane outside a set of cells. */
  method Silence(scores: array2<nat>, n: set<Cell>)
    modifies scores
    ensures forall y, x | 0 <= y < scores.Length0 && 0 <= x < scores.Length1 ::
      scores[y, x] == if (y, x) in n then old(scores[y, x]) else 0
  {
    for y := 0 to scores.Length0
      invariant forall i, j | 0 <= i < scores.Length0 && 0 <= j < scores.Length1 ::
        scores[i, j] == if i >= y || (i, j) in n then old(scores[i, j]) else 0
    {
      for x := 0 to scores.Length1
        invariant forall i, j | 0 <= i < scores.Length0 && 0 <= j < scores.Length1 && i != y ::
          scores[i, j] == if i >= y || (i, j) in n then old(scores[i, j]) else 0
        invariant forall j | 0 <= j < scores.Length1 ::
          scores[y, j] == if j >= x || (y, j) in n then old(scores[y, j]) else 0
      {
        if (y, x) !in n {
          scores[y, x] := 0;
        }
      }
    }
  }

  lemma {:induction false} SilencedIs(s: map<Cell, nat>, t: map<Cell, nat>, n: set<Cell>)
    requires t.Keys == s.Keys && forall c | c in s :: t[c] == if c in n then s[c] else 0
    ensures Silenced(Some(s), n) == Some(t)
  {
    assert Silenced(Some(s), n).value == t;
  }

  method SilenceScores(scores: Option<array2<nat>>, n: set<Cell>)
    modifies if scores.Some? then {scores.value} else {}
    ensures ScoresOf(scores) == Silenced(old(ScoresOf(scores)), n)
  {
    if scores.Some? {
      ghost var was := ScoreMap(scores.value);
      Silence(scores.value, n);
      forall c | c in was
        ensures ScoreMap(scores.value)[c] == if c in n then was[c] else 0
      {
        assert c == (c.0, c.1);
      }
      SilencedIs(was, ScoreMap(scores.value), n);
    }
  }

  /** The cells of the slice that pass the minimums that are switched on. */
  method KeptCells(mask: array2<nat>, scores: Option<array2<nat>>, k: Minimums,
                   confLabels: map<Cell, nat>, confCount: nat,
                   radiusLabels: map<Cell, nat>, radiusCount: nat, dist: map<Cell, nat>)
    returns (n: set<Cell>)
    requires scores.Some? ==> PlaneOf(scores.value) == PlaneOf(mask)
    requires scores.Some? && k.conf.Some? ==> Labels(confLabels, confCount, PlaneOf(mask), Foreground(mask), true)
    requires k.radius2.Some? ==>
      var n := AfterConf(Foreground(mask), ScoresOf(scores), k);
      Labels(radiusLabels, radiusCount, PlaneOf(mask), n, true) && IsDistance(PlaneOf(mask), n, dist, k.radius2.value)
    ensures n <= Cells(PlaneOf(mask))
    ensures n == Cleaned(PlaneOf(mask), Foreground(mask), ScoresOf(scores), k)
  {
    hide Far, IsLabelling, Linked, IsDistance;
    var r := PlaneOf(mask);
    var m := set c | c in Cells(r) && mask[c.0, c.1] != 0;
    assert m == Foreground(mask);
    n := m;
    if scores.Some? && k.conf.Some? {
      n := FilterByMaximum(confLabels, confCount, ScoreMap(scores.value), r, k.conf.value, m);
    }
    assert n == AfterConf(m, ScoresOf(scores), k);
    if k.radius2.Some? {
      DistanceDecides(r, n, dist, k.radius2.value);
      n := FilterByMaximum(radiusLabels, radiusCount, dist, r, k.radius2.value, n);
    }
  }

  lemma {:induction false} SomeReaches(r: Rect, m: set<Cell>, s: map<Cell, nat>, k: Minimums, n: set<Cell>)
    returns (d: Cell)
    requires m <= Cells(r) && n == Cleaned(r, m, Some(s), k) && n != {} && k.conf.Some?
    ensures d in m && d in s && s[d] >= k.conf.value
  {
    var c :| c in n;
    CleanedIsMeeting(r, m, Some(s), k, c);
    d :| Linked(m, true, c, d) && d in s && s[d] >= k.conf.value;
    LinkedEnds(m, true, c, d);
  }

  /** Cleans one slice: components below a minimum go, and scores outside what stays become zero. */
  method CleanSlice(mask: array2<nat>, scores: Option<array2<nat>>, k: Minimums,
                    confLabels: map<Cell, nat>, confCount: nat,
                    radiusLabels: map<Cell, nat>, radiusCount: nat, dist: map<Cell, nat>)
    returns (any: bool)
    requires scores.Some? ==> scores.value != mask && PlaneOf(scores.value) == PlaneOf(mask)
    requires scores.Some? && k.conf.Some? ==> Labels(confLabels, confCount, PlaneOf(mask), Foreground(mask), true)
    requires k.radius2.Some? ==>
      var n := AfterConf(Foreground(mask), ScoresOf(scores), k);
      Labels(radiusLabels, radiusCount, PlaneOf(mask), n, true) && IsDistance(PlaneOf(mask), n, dist, k.radius2.value)
    modifies mask, if scores.Some? then {scores.value} else {}
    ensures Foreground(mask) == Cleaned(PlaneOf(mask), old(Foreground(mask)), old(ScoresOf(scores)), k)
    ensures ScoresOf(scores) == Silenced(old(ScoresOf(scores)), Foreground(mask))
    ensures scores.Some? ==>
      forall y, x | 0 <= y < mask.Length0 && 0 <= x < mask.Length1 ::
        scores.value[y, x] == if mask[y, x] != 0 then old(scores.value[y, x]) else 0
    ensures scores.Some? && k.conf.Some? && any ==>
      exists y, x :: 0 <= y < mask.Length0 && 0 <= x < mask.Length1
                     && old(mask[y, x]) != 0 && old(scores.value[y, x]) >= k.conf.value
    ensures any <==> Foreground(mask) != {}
  {
    hide IsLabelling, IsDistance, Keep;
    var n := set c | c in Cells(PlaneOf(mask)) && mask[c.0, c.1] != 0;
    if scores.None? && k.conf.None? && k.radius2.None? {
      assert n == Foreground(mask);
      return n != {};
    }
    n := KeptCells(mask, scores, k, confLabels, confCount, radiusLabels, radiusCount, dist);
    WriteMask(mask, n);
    SilenceScores(scores, n);
    any := n != {};
    if scores.Some? {
      ghost var was, now := old(ScoreMap(scores.value)), ScoreMap(scores.value);
      forall y, x | 0 <= y < mask.Length0 && 0 <= x < mask.Length1
        ensures scores.value[y, x] == if mask[y, x] != 0 then old(scores.value[y, x]) else 0
      {
        assert now[(y, x)] == if (y, x) in n then was[(y, x)] else 0;
      }
      if k.conf.Some? && n != {} {
        ghost var d := SomeReaches(PlaneOf(mask), old(Foreground(mask)), was, k, n);
        assert old(mask[d.0, d.1]) != 0 && old(scores.value[d.0, d.1]) >= k.conf.value;
      }
    }
  }
}
