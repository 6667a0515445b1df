/** Keeping the 8-connected components that reach a score and a radius. */
module ComponentFilter {
  import opened Grid
  import opened Options
  import opened Planes

  function Square(a: Cell, b: Cell): nat {
    var dy, dx := Abs(a.0 - b.0), Abs(a.1 - b.1);
    dy * dy + dx * dx
  }

  /** Every background cell of the plane is at least the radius away; `r2` is its square. */
  ghost predicate Far(r: Rect, m: set<Cell>, c: Cell, r2: nat) {
    forall b | b in Cells(r) - m :: Square(c, b) >= r2
  }

  ghost function Deep(r: Rect, m: set<Cell>, r2: nat): set<Cell> {
    set c | c in m && Far(r, m, c, r2)
  }

  ghost function ConfFilter(m: set<Cell>, scores: map<Cell, nat>, t: nat): set<Cell> {
    Keep(m, true, Passing(m, scores, t))
  }

  ghost function RadiusFilter(r: Rect, m: set<Cell>, r2: nat): set<Cell> {
    Keep(m, true, Deep(r, m, r2))
  }

  /** The byte threshold for a confidence in 0..1. */
  function ByteThreshold(conf: real): int {
    var c := if conf < 0.0 then 0.0 else if conf > 1.0 then 1.0 else conf;
    var x := c * 255.0 - 0.000000001;
    -((-x).Floor)
  }

  /** A byte passes exactly when it is within the rounding allowance of 255 times the minimum;
      every threshold is a byte. */
  lemma {:induction false} ThresholdIsExact(conf: real, v: nat)
    ensures 0 <= ByteThreshold(conf) <= 255
    ensures 0.0 <= conf <= 1.0 ==> (v >= ByteThreshold(conf) <==> v as real >= conf * 255.0 - 0.000000001)
    ensures conf > 1.0 ==> (v >= ByteThreshold(conf) <==> v >= 255)
  {
    var c := if conf < 0.0 then 0.0 else if conf > 1.0 then 1.0 else conf;
    var x := c * 255.0 - 0.000000001;
    assert (-x).Floor as real <= -x < (-x).Floor as real + 1.0;
    assert 0.0 <= c <= 1.0;
    assert -0.000000001 <= x <= 255.0;
  }

  // Distance and other components

  /** If the whole box between two cells is foreground they are in one component. */
  lemma {:induction false} BoxLinks(m: set<Cell>, a: Cell, b: Cell)
    requires forall c: Cell | Between(a, c, b) :: c in m
    ensures Linked(m, true, a, b)
    decreases Abs(a.0 - b.0) + Abs(a.1 - b.1)
  {
    assert Between(a, a, b);
    if a == b {
      LinkedSelf(m, true, a);
    } else {
      var n := (Toward(a.0, b.0), Toward(a.1, b.1));
      forall c: Cell | Between(n, c, b)
        ensures c in m
      {
        assert Between(a, c, b);
      }
      BoxLinks(m, n, b);
      LinkedStep(m, true, a, n, b);
    }
  }

  function Toward(i: int, j: int): int {
    if i < j then i + 1 else if i > j then i - 1 else i
  }

  predicate Between(a: Cell, c: Cell, b: Cell) {
    && (a.0 <= c.0 <= b.0 || b.0 <= c.0 <= a.0)
    && (a.1 <= c.1 <= b.1 || b.1 <= c.1 <= a.1)
  }

  lemma {:induction false} SquareGrows(i: nat, j: nat)
    requires i <= j
    ensures i * i <= j * j
  {
    assert j * j == i * i + (j - i) * (j + i);
  }

  /** Another component is never nearer than the background in front of it. */
  lemma {:induction false} BackgroundInFront(r: Rect, m: set<Cell>, a: Cell, q: Cell)
    requires m <= Cells(r) && a in m && q in m && !Linked(m, true, a, q)
    ensures exists b :: b in Cells(r) - m && Square(a, b) <= Square(a, q)
  {
    if forall c: Cell | Between(a, c, q) :: c in m {
      BoxLinks(m, a, q);
    }
    var b: Cell :| Between(a, b, q) && b !in m;
    SquareGrows(Abs(a.0 - b.0), Abs(a.0 - q.0));
    SquareGrows(Abs(a.1 - b.1), Abs(a.1 - q.1));
    assert b in Cells(r) - m;
  }

  /** Removing whole other components changes no remaining cell's distance to background:
      each radius is reached after the removal exactly when it was reached before. */
  lemma {:induction false} DistanceUnchanged(r: Rect, n: set<Cell>, m: set<Cell>, c: Cell, r2: nat)
    requires m <= Cells(r) && Whole(n, m, true) && c in n
    ensures Far(r, n, c, r2) <==> Far(r, m, c, r2)
  {
    if Far(r, m, c, r2) {
      forall b | b in Cells(r) - n
        ensures Square(c, b) >= r2
      {
        if b in m {
          BackgroundInFront(r, m, c, b);
          var e :| e in Cells(r) - m && Square(c, e) <= Square(c, b);
        }
      }
    }
  }

  // The two filters

  lemma {:induction false} ConfWithin(n: set<Cell>, m: set<Cell>, scores: map<Cell, nat>, t: nat)
    requires Whole(n, m, true)
    ensures ConfFilter(n, scores, t) == ConfFilter(m, scores, t) * n
  {
    KeepWithin(n, m, true, Passing(m, scores, t));
    KeepSame(n, true, Passing(n, scores, t), Passing(m, scores, t));
  }

  lemma {:induction false} RadiusWithin(r: Rect, n: set<Cell>, m: set<Cell>, r2: nat)
    requires m <= Cells(r) && Whole(n, m, true)
    ensures RadiusFilter(r, n, r2) == RadiusFilter(r, m, r2) * n
  {
    forall c | c in n
      ensures c in Deep(r, n, r2) <==> c in Deep(r, m, r2)
    {
      DistanceUnchanged(r, n, m, c, r2);
    }
    KeepWithin(n, m, true, Deep(r, m, r2));
    KeepSame(n, true, Deep(r, n, r2), Deep(r, m, r2));
  }

  /** Only the good cells inside the set matter. */
  lemma {:induction false} KeepSame(m: set<Cell>, eight: bool, a: set<Cell>, b: set<Cell>)
    requires a * m == b * m
    ensures Keep(m, eight, a) == Keep(m, eight, b)
  {
    forall c | c in m
      ensures c in Keep(m, eight, a) <==> c in Keep(m, eight, b)
    {
      forall d: Cell | Linked(m, eight, c, d)
        ensures d in a <==> d in b
      {
        LinkedEnds(m, eight, c, d);
        assert d in a * m <==> d in b * m;
      }
    }
  }

  /** Confidence then radius keeps exactly the components that meet both in the original slice,
      and the order of the filters does not matter. */
  lemma {:induction false} BothFilters(r: Rect, m: set<Cell>, scores: map<Cell, nat>, t: nat, r2: nat)
    requires m <= Cells(r)
    ensures RadiusFilter(r, ConfFilter(m, scores, t), r2) == ConfFilter(m, scores, t) * RadiusFilter(r, m, r2)
    ensures RadiusFilter(r, ConfFilter(m, scores, t), r2) == ConfFilter(RadiusFilter(r, m, r2), scores, t)
  {
    KeepIsWhole(m, true, Passing(m, scores, t));
    KeepIsWhole(m, true, Deep(r, m, r2));
    RadiusWithin(r, ConfFilter(m, scores, t), m, r2);
    ConfWithin(RadiusFilter(r, m, r2), m, scores, t);
  }

  // The whole slice

  /** A minimum that is switched on carries its threshold: a byte, and a squared radius. */
  datatype Minimums = Minimums(conf: Option<nat>, radius2: Option<nat>)

  ghost function AfterConf(m: set<Cell>, scores: Option<map<Cell, nat>>, k: Minimums): set<Cell> {
    if scores.Some? && k.conf.Some? then ConfFilter(m, scores.value, k.conf.value) else m
  }

  ghost function Cleaned(r: Rect, m: set<Cell>, scores: Option<map<Cell, nat>>, k: Minimums): set<Cell> {
    var n := AfterConf(m, scores, k);
    if k.radius2.Some? then RadiusFilter(r, n, k.radius2.value) else n
  }

  function Silenced(scores: Option<map<Cell, nat>>, kept: set<Cell>): Option<map<Cell, nat>> {
    match scores
    case None => None
    case Some(s) => Some(map c | c in s :: if c in kept then s[c] else 0)
  }

  /** The component of `c` in the original slice reaches both minimums. */
  ghost predicate Meets(r: Rect, m: set<Cell>, scores: Option<map<Cell, nat>>, k: Minimums, c: Cell) {
    && (scores.Some? && k.conf.Some? ==>
      exists d: Cell :: Linked(m, true, c, d) && d in scores.value && scores.value[d] >= k.conf.value)
    && (k.radius2.Some? ==>
      exists d: Cell :: Linked(m, true, c, d) && Far(r, m, d, k.radius2.value))
  }

  lemma {:induction false} CleanedIsMeeting(r: Rect, m: set<Cell>, scores: Option<map<Cell, nat>>, k: Minimums, c: Cell)
    requires m <= Cells(r)
    ensures c in Cleaned(r, m, scores, k) <==> c in m && Meets(r, m, scores, k, c)
  {
    if scores.Some? && k.conf.Some? {
      if k.radius2.Some? {
        BothFilters(r, m, scores.value, k.conf.value, k.radius2.value);
      }
      ConfMeets(m, scores.value, k.conf.value, c);
    }
    if k.radius2.Some? {
      RadiusMeets(r, m, k.radius2.value, c);
    }
  }

  lemma {:induction false} ConfMeets(m: set<Cell>, scores: map<Cell, nat>, t: nat, c: Cell)
    ensures c in ConfFilter(m, scores, t) <==>
      c in m && exists d: Cell :: Linked(m, true, c, d) && d in scores && scores[d] >= t
  {
    if d: Cell :| c in m && Linked(m, true, c, d) && d in scores && scores[d] >= t {
      LinkedEnds(m, true, c, d);
      assert d in Passing(m, scores, t);
    }
  }

  lemma {:induction false} RadiusMeets(r: Rect, m: set<Cell>, r2: nat, c: Cell)
    ensures c in RadiusFilter(r, m, r2) <==>
      c in m && exists d: Cell :: Linked(m, true, c, d) && Far(r, m, d, r2)
  {
    if d: Cell :| c in m && Linked(m, true, c, d) && Far(r, m, d, r2) {
      LinkedEnds(m, true, c, d);
      assert d in Deep(r, m, r2);
    }
  }

  lemma {:induction false} CleanedIsWhole(r: Rect, m: set<Cell>, scores: Option<map<Cell, nat>>, k: Minimums)
    requires m <= Cells(r)
    ensures Whole(Cleaned(r, m, scores, k), m, true)
  {
    forall c: Cell, d: Cell | c in Cleaned(r, m, scores, k) && Linked(m, true, c, d)
      ensures d in Cleaned(r, m, scores, k)
    {
      LinkedEnds(m, true, c, d);
      LinkedBack(m, true, c, d);
      CleanedIsMeeting(r, m, scores, k, c);
      CleanedIsMeeting(r, m, scores, k, d);
      MeetsTogether(r, m, scores, k, c, d);
    }
    forall c | c in Cleaned(r, m, scores, k)
      ensures c in m
    {
      CleanedIsMeeting(r, m, scores, k, c);
    }
  }

  lemma {:induction false} MeetsTogether(r: Rect, m: set<Cell>, scores: Option<map<Cell, nat>>, k: Minimums, c: Cell,
        d: Cell)
    requires Linked(m, true, d, c) && Meets(r, m, scores, k, c)
    ensures Meets(r, m, scores, k, d)
  {
    forall e: Cell | Linked(m, true, c, e)
      ensures Linked(m, true, d, e)
    {
      LinkedVia(m, true, d, c, e);
    }
  }

  /** In whole components, with the scores there left alone, every cell still meets the minimums. */
  lemma {:induction false} MeetsAgain(r: Rect, m: set<Cell>, scores: Option<map<Cell, nat>>, k: Minimums,
        kept: set<Cell>, c: Cell)
    requires m <= Cells(r) && Whole(kept, m, true) && c in kept && Meets(r, m, scores, k, c)
    ensures Meets(r, kept, Silenced(scores, kept), k, c)
  {
    hide Far, Linked;
    forall d: Cell | Linked(m, true, c, d)
      ensures Linked(kept, true, c, d) && d in kept
    {
      LinkedWithin(kept, m, true, c, d);
    }
    if k.radius2.Some? {
      var d: Cell :| Linked(m, true, c, d) && Far(r, m, d, k.radius2.value);
      DistanceUnchanged(r, kept, m, d, k.radius2.value);
    }
  }

  /** Cleaning a cleaned slice, with the silenced scores, changes neither. */
  lemma {:induction false} CleanedAgain(r: Rect, m: set<Cell>, scores: Option<map<Cell, nat>>, k: Minimums)
    requires m <= Cells(r)
    ensures var kept, quiet := Cleaned(r, m, scores, k), Silenced(scores, Cleaned(r, m, scores, k));
      Cleaned(r, kept, quiet, k) == kept && Silenced(quiet, kept) == quiet
  {
    hide Cleaned, Meets, Whole;
    var kept, quiet := Cleaned(r, m, scores, k), Silenced(scores, Cleaned(r, m, scores, k));
    CleanedIsWhole(r, m, scores, k);
    forall c
      ensures c in Cleaned(r, kept, quiet, k) <==> c in kept
    {
      CleanedIsMeeting(r, m, scores, k, c);
      WholeIsPart(kept, m);
      CleanedIsMeeting(r, kept, quiet, k, c);
      if c in kept {
        MeetsAgain(r, m, scores, k, kept, c);
      }
    }
    if scores.Some? {
      assert Silenced(quiet, kept).value == quiet.value;
    }
  }

  lemma {:induction false} WholeIsPart(n: set<Cell>, m: set<Cell>)
    requires Whole(n, m, true)
    ensures n <= m
  {
  }
}
