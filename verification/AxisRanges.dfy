/** Which source rows an output row reads: integer footprints and their bounds. */
module AxisRanges {
  function Floor(a: nat, b: nat): nat
    requires b > 0
  {
    a / b
  }

  function Ceil(a: nat, b: nat): nat
    requires b > 0
  {
    (a + b - 1) / b
  }

  lemma {:induction false} FloorMeans(a: nat, b: nat, q: nat)
    requires b > 0
    ensures q == Floor(a, b) <==> q * b <= a < q * b + b
  {
    var f := a / b;
    assert a == f * b + a % b;
    if q < f {
      Next(q, f, b);
    } else if q > f {
      Next(f, q, b);
    }
  }

  lemma {:induction false} Product(a: nat, b: nat)
    ensures a * b >= 0
  {
  }

  lemma {:induction false} Next(a: nat, c: nat, b: nat)
    requires a < c
    ensures a * b + b <= c * b
  {
    Product(c - a - 1, b);
    assert c * b == a * b + b + (c - a - 1) * b;
  }

  lemma {:induction false} CeilMeans(a: nat, b: nat, q: nat)
    requires b > 0
    ensures q == Ceil(a, b) ==> a <= q * b < a + b
    ensures a <= q * b < a + b ==> q == Ceil(a, b)
  {
    FloorMeans(a + b - 1, b, Ceil(a, b));
    FloorMeans(a + b - 1, b, q);
  }

  /** The source rows of output row `i` when the source is at least as long as the output. */
  function First(src: nat, out: nat, i: nat): nat
    requires out > 0
  {
    Floor(i * src, out)
  }

  function Stop(src: nat, out: nat, i: nat): nat
    requires out > 0
  {
    Ceil((i + 1) * src, out)
  }

  lemma {:induction false} Scale(i: nat, j: nat, src: nat)
    requires i <= j
    ensures i * src <= j * src
  {
    assert j * src == i * src + (j - i) * src;
  }

  /** Footprints are nonempty, inside the source, and move forward with the output row. */
  lemma {:induction false} FootprintsAdvance(src: nat, out: nat, i: nat)
    requires src >= out > 0 && i < out
    ensures First(src, out, i) < Stop(src, out, i) <= src
    ensures First(src, out, i) <= First(src, out, i + 1) && Stop(src, out, i) <= Stop(src, out, i + 1)
    ensures First(src, out, i + 1) <= Stop(src, out, i)
  {
    var a, b, c := i * src, (i + 1) * src, (i + 1 + 1) * src;
    assert b == a + src && c == b + src;
    FloorMeans(a, out, First(src, out, i));
    FloorMeans(b, out, First(src, out, i + 1));
    CeilMeans(b, out, Stop(src, out, i));
    CeilMeans(c, out, Stop(src, out, i + 1));
    var f, g, s, t := First(src, out, i), First(src, out, i + 1), Stop(src, out, i), Stop(src, out, i + 1);
    if f >= s {
      Scale(s, f, out);
    }
    if f > g {
      Next(g, f, out);
    }
    if s > t {
      Next(t, s, out);
    }
    if g > s {
      Next(s, g, out);
    }
    Scale(i + 1, out, src);
    assert out * src == src * out;
    if s > src {
      Next(src, s, out);
    }
  }

  lemma {:induction false} FootprintEnds(src: nat, out: nat)
    requires src >= out > 0
    ensures First(src, out, 0) == 0 && Stop(src, out, out - 1) == src
  {
    FloorMeans(0, out, 0);
    CeilMeans(out * src, out, src);
    assert out * src == src * out;
  }

  /** Contracting footprints cover every source row. */
  lemma {:induction false} FootprintsCover(src: nat, out: nat, y: nat) returns (i: nat)
    requires src >= out > 0 && y < src
    ensures i < out && First(src, out, i) <= y < Stop(src, out, i)
  {
    FootprintEnds(src, out);
    i := CoverFrom(src, out, y, 0);
  }

  lemma {:induction false} CoverFrom(src: nat, out: nat, y: nat, from: nat) returns (i: nat)
    requires src >= out > 0 && y < src && from < out && First(src, out, from) <= y
    ensures i < out && First(src, out, i) <= y < Stop(src, out, i)
    decreases out - from
  {
    if y < Stop(src, out, from) {
      i := from;
    } else {
      FootprintEnds(src, out);
      FootprintsAdvance(src, out, from);
      i := CoverFrom(src, out, y, from + 1);
    }
  }

  /** Any run of `c` output rows reads at most ceil(c * src / out) + 1 source rows, one fewer than
      the staging buffer is made for. */
  lemma {:induction false} ChunkBound(src: nat, out: nat, i: nat, c: nat)
    requires src >= out > 0 && c > 0 && i + c <= out
    ensures First(src, out, i) <= Stop(src, out, i + c - 1)
    ensures Stop(src, out, i + c - 1) - First(src, out, i) <= Ceil(c * src, out) + 1
  {
    var f, s, m := First(src, out, i), Stop(src, out, i + c - 1), Ceil(c * src, out);
    assert (i + c - 1 + 1) * src == i * src + c * src;
    FloorMeans(i * src, out, f);
    CeilMeans(i * src + c * src, out, s);
    CeilMeans(c * src, out, m);
    RowsOfChunk(f, s, m, out, i * src, c * src);
  }

  lemma {:induction false} RowsOfChunk(f: nat, s: nat, m: nat, out: nat, x: nat, y: nat)
    requires f * out <= x < f * out + out && x + y <= s * out < x + y + out && y <= m * out
    ensures f <= s <= f + m + 1
  {
    var top := f + m + 1;
    assert top * out == f * out + m * out + out;
    if s > top {
      Next(top, s, out);
    }
    if f > s {
      Next(s, f, out);
    }
  }

  // Expansion

  /** Round half to even of `n / d`. */
  function RoundHalfEven(n: int, d: nat): int
    requires d > 0
  {
    var q, r := n / d, n % d;
    if 2 * r < d || (2 * r == d && q % 2 == 0) then q else q + 1
  }

  /** A range of rows clipped to the source, at least one row long. */
  function Clipped(src: nat, low: int, high: int): (int, int)
    requires src > 0
  {
    var start := Confine(low, 0, src - 1);
    (start, Confine(if high < start + 1 then start + 1 else high, 1, src))
  }

  /** Clipping gives at least one row of the source, and every row of the range that the source has. */
  lemma {:induction false} ClippedHolds(src: nat, low: int, high: int, y: int)
    requires src > 0
    ensures var (start, stop) := Clipped(src, low, high);
      && 0 <= start < stop <= src
      && (0 <= y < src && low <= y < high ==> start <= y < stop)
      && (0 <= low < high <= src ==> start == low && stop == high)
  {
  }

  function Confine(i: int, low: int, high: int): int {
    if i < low then low else if i > high then high else i
  }

  /** The loop bounds of the device kernel. */
  function KernelRange(src: nat, out: nat, i: nat): (int, int)
    requires src > 0 && out > 0
  {
    var v0, v1 := First(src, out, i), Stop(src, out, i);
    var v1 := if v1 > src then src else v1;
    (v0, if v1 <= v0 then (if v0 + 1 <= src then v0 + 1 else src) else v1)
  }

  /** When contracting, the kernel's clipping changes nothing, and neither does the host's. */
  lemma {:induction false} FootprintsUnclipped(src: nat, out: nat, i: nat)
    requires src >= out > 0 && i < out
    ensures KernelRange(src, out, i) == (First(src, out, i), Stop(src, out, i))
    ensures Clipped(src, First(src, out, i), Stop(src, out, i)) == (First(src, out, i), Stop(src, out, i))
  {
    FootprintsAdvance(src, out, i);
  }
}
