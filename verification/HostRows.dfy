/** The rows that the host picks in floating point, against the integer rows of the kernels. */
module HostRows {
  // A double quotient of two integers is off by at most one part in 2^53, and exact when it is a multiple
  // of one half. Nothing else about rounding is used, so the results hold for every such quotient.

  import opened AxisRanges

  const UNITS: nat := 0x20_0000_0000_0000

  /** `q` may be what dividing `a` by `b` gives. */
  predicate Quotient(q: real, a: nat, b: nat)
    requires b > 0
  {
    && Near(q * b as real, a as real)
    && (2 * a % b == 0 ==> q * b as real == a as real)
  }

  /** `x` is `y` up to one part in 2^53 of it. */
  predicate Near(x: real, y: real) {
    var slack := if y >= 0.0 then y else -y;
    -slack <= (x - y) * UNITS as real <= slack
  }

  function Up(q: real): int {
    -((-q).Floor)
  }

  /** Rounds to the nearest integer, ties to the even one. */
  function Round(q: real): int {
    var f := q.Floor;
    var rest := q - f as real;
    if rest < 0.5 || (rest == 0.5 && f % 2 == 0) then f else f + 1
  }

  /** Quotients of integers below 2^52 are on the right side of every half. */
  lemma {:induction false} Threshold(q: real, a: nat, b: nat, m: int)
    requires b > 0 && Quotient(q, a, b) && 2 * a < UNITS
    ensures 2.0 * q < m as real <==> 2 * a < m * b
    ensures 2.0 * q == m as real <==> 2 * a == m * b
  {
    hide Near;
    if 2 * a == m * b {
      Divides(2 * a, b, m);
    }
    ThresholdOf(q * b as real, a, m * b);
    Compare(q, b, m);
  }

  lemma {:induction false} ThresholdOf(x: real, a: nat, n: int)
    requires Near(x, a as real) && 2 * a < UNITS && (2 * a == n ==> x == a as real)
    ensures 2.0 * x < n as real <==> 2 * a < n
    ensures 2.0 * x == n as real <==> 2 * a == n
  {
    Close(x, a as real);
  }

  lemma {:induction false} Close(x: real, y: real)
    requires Near(x, y) && 0.0 <= y && 2.0 * y < UNITS as real
    ensures -1.0 < 2.0 * (x - y) < 1.0
  {
  }

  lemma {:induction false} Divides(a: nat, b: nat, m: int)
    requires b > 0 && a == m * b
    ensures a % b == 0
  {
    FloorMeans(a, b, m);
    assert a == a / b * b + a % b;
  }

  lemma {:induction false} Compare(q: real, b: nat, m: int)
    requires b > 0
    ensures 2.0 * q < m as real <==> 2.0 * (q * b as real) < (m * b) as real
    ensures 2.0 * q == m as real <==> 2.0 * (q * b as real) == (m * b) as real
  {
    var n, z := b as real, m as real;
    assert (m * b) as real == z * n;
    assert (z - 2.0 * q) * n == z * n - 2.0 * (q * n);
  }

  /** Quotients of integers below 2^53 are on the right side of every integer. */
  lemma {:induction false} WholeThreshold(q: real, a: nat, b: nat, m: int)
    requires b > 0 && Quotient(q, a, b) && a < UNITS
    ensures q < m as real <==> a < m * b
    ensures q == m as real <==> a == m * b
  {
    hide Near;
    if a == m * b {
      assert 2 * a == (2 * m) * b;
      Divides(2 * a, b, 2 * m);
    }
    WholeOf(q * b as real, a, m * b);
    assert (2 * m) * b == 2 * (m * b);
    Compare(q, b, 2 * m);
  }

  lemma {:induction false} WholeOf(x: real, a: nat, n: int)
    requires Near(x, a as real) && a < UNITS && (a == n ==> x == a as real)
    ensures 2.0 * x < (2 * n) as real <==> a < n
    ensures 2.0 * x == (2 * n) as real <==> a == n
  {
    assert -1.0 < x - a as real < 1.0;
  }

  lemma {:induction false} FloorIsExact(q: real, a: nat, b: nat)
    requires b > 0 && Quotient(q, a, b) && a < UNITS
    ensures q.Floor == Floor(a, b)
  {
    var f := Floor(a, b);
    FloorMeans(a, b, f);
    assert (f + 1) * b == f * b + b;
    WholeThreshold(q, a, b, f);
    WholeThreshold(q, a, b, f + 1);
  }

  lemma {:induction false} CeilIsExact(q: real, a: nat, b: nat)
    requires b > 0 && Quotient(q, a, b) && a < UNITS
    ensures Up(q) == Ceil(a, b)
  {
    var c := Ceil(a, b);
    CeilMeans(a, b, c);
    assert (c - 1) * b == c * b - b;
    WholeThreshold(q, a, b, c);
    WholeThreshold(q, a, b, c - 1);
    UpIs(q, c);
  }

  lemma {:induction false} UpIs(q: real, c: int)
    requires c as real - 1.0 < q <= c as real
    ensures Up(q) == c
  {
  }

  lemma {:induction false} RoundIsExact(q: real, a: nat, b: nat)
    requires b > 0 && Quotient(q, a, b) && 2 * a < UNITS
    ensures Round(q) == RoundHalfEven(a, b)
  {
    var f := a / b;
    FloorIsExact(q, a, b);
    assert a == f * b + a % b;
    assert (2 * f + 1) * b == 2 * (f * b) + b;
    Threshold(q, a, b, 2 * f + 1);
  }

  // The host's row range

  /** What the host computes on the way: the two ends when contracting; when expanding, the ratio, its
      product with the centre of the output row, and the coordinate. */
  datatype Doubles = Doubles(low: real, high: real, ratio: real, product: real, coordinate: real)

  function Mul(x: real, y: real): real {
    x * y
  }

  predicate Computed(d: Doubles, src: nat, out: nat, i: nat)
    requires src > 0 && out > 0
  {
    if src >= out then Quotient(d.low, i * src, out) && Quotient(d.high, (i + 1) * src, out)
    else
      && Quotient(d.ratio, src, out)
      && Near(d.product, Mul(i as real + 0.5, d.ratio))
      && Near(d.coordinate, d.product - 0.5)
  }

  /** The rows that the host reads for output row `i`. */
  function HostRange(d: Doubles, src: nat, out: nat): (int, int)
    requires src > 0 && out > 0
  {
    if src >= out then Clipped(src, d.low.Floor, Up(d.high))
    else
      var nearest := Confine(Round(d.coordinate), 0, src - 1);
      (nearest, nearest + 1)
  }

  /** Sizes whose products doubles hold exactly. */
  predicate Small(src: nat, out: nat) {
    src * out < UNITS && 22 * out < UNITS
  }

  lemma {:induction false} SmallProduct(src: nat, out: nat, i: nat)
    requires Small(src, out) && i <= out
    ensures i * src < UNITS
  {
    Scale(i, out, src);
    assert out * src == src * out;
  }

  lemma {:induction false} EndsAreExact(low: real, high: real, src: nat, out: nat, i: nat)
    requires out > 0 && i < out && Quotient(low, i * src, out) && Quotient(high, (i + 1) * src, out) && Small(src, out)
    ensures low.Floor == First(src, out, i) && Up(high) == Stop(src, out, i)
  {
    hide Up, Quotient, Floor, Ceil, Small;
    SmallProduct(src, out, i);
    SmallProduct(src, out, i + 1);
    FloorIsExact(low, i * src, out);
    CeilIsExact(high, (i + 1) * src, out);
  }

  /** When contracting, the host's rows are the integer footprint, whatever the rounding; the kernel
      reads exactly those. */
  lemma {:induction false} KernelIsHost(d: Doubles, src: nat, out: nat, i: nat)
    requires src >= out > 0 && i < out && Small(src, out) && Computed(d, src, out, i)
    ensures HostRange(d, src, out) == KernelRange(src, out, i) == (First(src, out, i), Stop(src, out, i))
  {
    hide Clipped, KernelRange, Up, Quotient, Small, First, Stop;
    EndsAreExact(d.low, d.high, src, out, i);
    FootprintsUnclipped(src, out, i);
  }

  /** Beyond 2^53 it fails: on an axis of 2^28 - 1 rows contracted to 2^27, the product for the end of the
      last row but one is no double. The nearest double, one less, is a multiple of the output length, and so
      the host leaves out the last row that the kernel reads. */
  lemma {:induction false} HostLosesRow()
    ensures var src, out, i, q := 0x0fff_ffff, 0x0800_0000, 0x07ff_fffe, 268435453.0;
            var exact, product := (i + 1) * src, (i + 1) * src - 1;
      && i + 1 < out <= src < 0x8000_0000
      && 2 * UNITS <= exact < 4 * UNITS && product % 4 == 0 && q * out as real == product as real
      && Up(q) == Stop(src, out, i) - 1
      && Clipped(src, First(src, out, i), Up(q)).1 == KernelRange(src, out, i).1 - 1
  {
    var src, out, i, q := 0x0fff_ffff, 0x0800_0000, 0x07ff_fffe, 268435453.0;
    CeilMeans((i + 1) * src, out, 268435454);
    FloorMeans(i * src, out, 268435450);
    UpIs(q, 268435453);
  }

  // Expanding

  lemma {:induction false} MulGrows(k: real, x: real, y: real)
    requires k >= 0.0 && x <= y
    ensures Mul(k, x) <= Mul(k, y)
  {
    assert k * (y - x) >= 0.0;
  }

  lemma {:induction false} MulTwice(k: real, x: real)
    ensures Mul(k, 2.0 * x) == 2.0 * Mul(k, x) && Mul(k, -x) == -Mul(k, x) && Mul(k, 0.0) == 0.0
    ensures Mul(x, k) == Mul(k, x) && Mul(x, 1.0) == x
  {
  }

  lemma {:induction false} MulMinus(k: real, x: real, y: real)
    ensures Mul(k, x - y) == Mul(k, x) - Mul(k, y)
  {
  }

  lemma {:induction false} MulUnits(k: real, x: real)
    ensures Mul(k, x * UNITS as real) == Mul(k, x) * UNITS as real
  {
  }

  lemma {:induction false} NearScales(t: real, x: real, y: real)
    requires t > 0.0 && Near(x, y)
    ensures Near(Mul(t, x), Mul(t, y))
  {
    hide Mul;
    var slack := if y >= 0.0 then y else -y;
    MulGrows(t, (x - y) * UNITS as real, slack);
    MulGrows(t, -slack, (x - y) * UNITS as real);
    MulUnits(t, x - y);
    MulMinus(t, x, y);
    MulTwice(t, slack);
    MulTwice(t, y);
    if y >= 0.0 {
      MulGrows(t, 0.0, y);
    } else {
      MulGrows(t, y, 0.0);
    }
  }

  /** `k` times a ratio known up to one part in 2^53, and rounded again. */
  lemma {:induction false} ProductError(k: real, s: real, r: real, p: real)
    requires k >= 0.0 && s >= 1.0 && Near(r, s) && Near(p, Mul(k, r))
    ensures -3.0 * Mul(k, s) <= (p - Mul(k, s)) * UNITS as real <= 3.0 * Mul(k, s)
  {
    hide Mul;
    MulGrows(k, (r - s) * UNITS as real, s);
    MulGrows(k, -s, (r - s) * UNITS as real);
    MulUnits(k, r - s);
    MulMinus(k, r, s);
    MulTwice(k, s);
    MulGrows(k, r, 2.0 * s);
    MulGrows(k, 0.0, r);
  }

  /** The coordinate scaled by twice the output length is within the source length of its exact value. */
  lemma {:induction false} CoordinateError(ks: real, o: real, p: real, c: real, s: real)
    requires ks >= 0.0 && o >= 1.0 && s >= 1.0 && ks <= 2.0 * Mul(o, s) && 22.0 * o < UNITS as real
    requires -3.0 * ks <= (p - ks) * UNITS as real <= 3.0 * ks
    requires Near(c, p - o)
    ensures -s < c - (ks - o) < s
  {
    hide Mul;
    MulGrows(o, 1.0, s);
    MulTwice(o, 1.0);
    MulTwice(1.0, o);
    MulTwice(s, o);
    SmallMul(o, s);
  }

  lemma {:induction false} SmallMul(o: real, s: real)
    requires s >= 1.0 && 22.0 * o < UNITS as real
    ensures 22.0 * Mul(o, s) < UNITS as real * s
  {
    assert (UNITS as real - 22.0 * o) * s > 0.0;
  }

  /** Twice the output length times the exact coordinate of output row `i`. */
  function Centre(src: nat, out: nat, i: nat): int {
    (2 * i + 1) * src - out
  }

  lemma {:induction false} RatioNear(d: Doubles, src: nat, out: nat, i: nat)
    requires 0 < src < out && Computed(d, src, out, i)
    ensures Near(Mul(out as real, d.ratio), src as real)
  {
    hide Near;
    assert Mul(out as real, d.ratio) == d.ratio * out as real;
  }

  lemma {:induction false} ProductNear(d: Doubles, src: nat, out: nat, i: nat)
    requires 0 < src < out && Computed(d, src, out, i)
    ensures Near(Mul(2.0 * out as real, d.product), Mul((2 * i + 1) as real, Mul(out as real, d.ratio)))
  {
    hide Near, Mul, Quotient;
    var o := out as real;
    NearScales(2.0 * o, d.product, Mul(i as real + 0.5, d.ratio));
    Regroup(o, i as real, d.ratio);
    assert (2 * i + 1) as real == 2.0 * i as real + 1.0;
  }

  lemma {:induction false} Regroup(o: real, i: real, ratio: real)
    ensures Mul(2.0 * o, Mul(i + 0.5, ratio)) == Mul(2.0 * i + 1.0, Mul(o, ratio))
  {
    var k, x := i + 0.5, o * ratio;
    assert o * (k * ratio) == k * x;
    assert (2.0 * o) * (k * ratio) == 2.0 * (o * (k * ratio));
    assert (2.0 * k) * x == 2.0 * (k * x);
  }

  lemma {:induction false} ShiftNear(d: Doubles, src: nat, out: nat, i: nat)
    requires 0 < src < out && Computed(d, src, out, i)
    ensures Near(Mul(2.0 * out as real, d.coordinate), Mul(2.0 * out as real, d.product) - out as real)
  {
    hide Near, Mul;
    var o := out as real;
    NearScales(2.0 * o, d.coordinate, d.product - 0.5);
    MulMinus(2.0 * o, d.product, 0.5);
    HalfOf(o);
  }

  lemma {:induction false} HalfOf(o: real)
    ensures Mul(2.0 * o, 0.5) == o
  {
  }

  lemma {:induction false} CentreIs(src: nat, out: nat, i: nat)
    requires i < out
    ensures Centre(src, out, i) as real == Mul((2 * i + 1) as real, src as real) - out as real
    ensures 0.0 <= Mul((2 * i + 1) as real, src as real) <= 2.0 * Mul(out as real, src as real)
  {
    var k, s, o := (2 * i + 1) as real, src as real, out as real;
    assert ((2 * i + 1) * src) as real == k * s;
    hide Mul;
    MulGrows(s, k, 2.0 * o);
    MulGrows(s, 0.0, k);
    MulTwice(s, o);
    MulTwice(s, k);
  }

  lemma {:induction false} CoordinateNear(d: Doubles, src: nat, out: nat, i: nat)
    requires 0 < src < out && i < out && 22 * out < UNITS && Computed(d, src, out, i)
    ensures -(src as real) < Mul(2.0 * out as real, d.coordinate) - Centre(src, out, i) as real < src as real
  {
    hide Near, Mul, Computed, Centre;
    var s, o, k := src as real, out as real, (2 * i + 1) as real;
    var p, c := Mul(2.0 * o, d.product), Mul(2.0 * o, d.coordinate);
    RatioNear(d, src, out, i);
    ProductNear(d, src, out, i);
    ShiftNear(d, src, out, i);
    ProductError(k, s, Mul(o, d.ratio), p);
    CentreIs(src, out, i);
    CoordinateError(Mul(k, s), o, p, c, s);
  }

  lemma {:induction false} RoundWithin(c: real, f: int, s: int)
    requires f as real - 0.5 < c < s as real - 0.5
    ensures f <= Round(c) < s
  {
  }

  lemma {:induction false} MulRises(k: real, x: real, y: real)
    requires k > 0.0
    ensures Mul(k, x) < Mul(k, y) <==> x < y
  {
    assert k * (y - x) == k * y - k * x;
    assert y > x ==> k * (y - x) > 0.0;
    assert y < x ==> k * (x - y) > 0.0;
  }

  lemma {:induction false} HalfOfRow(o: nat, m: int)
    ensures Mul(2.0 * o as real, m as real - 0.5) == (2 * (m * o) - o) as real
  {
    var n, z := o as real, m as real;
    assert (m * o) as real == z * n;
    assert (2.0 * n) * (z - 0.5) == 2.0 * (z * n) - n;
  }

  /** Which side of the half before row `m` a coordinate lies. */
  lemma {:induction false} HalfRow(o: nat, m: int, c: real)
    requires o > 0
    ensures (2 * (m * o) - o) as real < Mul(2.0 * o as real, c) <==> m as real - 0.5 < c
    ensures Mul(2.0 * o as real, c) < (2 * (m * o) - o) as real <==> c < m as real - 0.5
  {
    hide Mul;
    HalfOfRow(o, m);
    MulRises(2.0 * o as real, m as real - 0.5, c);
    MulRises(2.0 * o as real, c, m as real - 0.5);
  }

  lemma {:induction false} CentreInside(src: nat, out: nat, i: nat)
    requires out > 0 && i < out && src < out
    ensures var (f, s) := (First(src, out, i), Stop(src, out, i));
      2 * (f * out) - out + src <= Centre(src, out, i) <= 2 * (s * out) - out - src && 0 <= f && s <= src
  {
    var a, b := i * src, (i + 1) * src;
    var f, s := First(src, out, i), Stop(src, out, i);
    assert b == a + src && Centre(src, out, i) == a + b - out;
    FloorMeans(a, out, f);
    CeilMeans(b, out, s);
    Scale(i + 1, out, src);
    assert out * src == src * out;
    if s > src {
      Next(src, s, out);
    }
  }

  lemma {:induction false} NearestWithin(d: Doubles, src: nat, out: nat, i: nat)
    requires 0 < src < out && i < out && 22 * out < UNITS && Computed(d, src, out, i)
    ensures First(src, out, i) <= Round(d.coordinate) < Stop(src, out, i) <= src
  {
    hide Near, Mul, Computed, Centre, First, Stop, Round;
    var f, s := First(src, out, i), Stop(src, out, i);
    CoordinateNear(d, src, out, i);
    CentreInside(src, out, i);
    HalfRow(out, f, d.coordinate);
    HalfRow(out, s, d.coordinate);
    RoundWithin(d.coordinate, f, s);
  }

  /** When expanding, the kernel's rows contain the row that the host picks, however its three steps round. */
  lemma {:induction false} KernelHoldsNearest(d: Doubles, src: nat, out: nat, i: nat)
    requires 0 < src < out && i < out && 22 * out < UNITS && Computed(d, src, out, i)
    ensures var (first, stop) := KernelRange(src, out, i);
      first <= HostRange(d, src, out).0 && HostRange(d, src, out).1 <= stop
    ensures HostRange(d, src, out) == (Round(d.coordinate), Round(d.coordinate) + 1)
  {
    hide Computed, Round, First, Stop;
    NearestWithin(d, src, out, i);
  }

  // The staging buffer

  /** What the host computes for the buffer: the product of the chunk and the source length, and its quotient. */
  predicate Sized(product: real, q: real, chunk: nat, src: nat, out: nat)
    requires out > 0
  {
    && Near(product, (chunk * src) as real) && Near(q * out as real, product)
    && (chunk * src < UNITS ==> Quotient(q, chunk * src, out))
  }

  /** The buffer is made once for chunks of `chunk` output rows. No run of as many rows or fewer needs as many
      source rows as it has, the last and shorter one included, nor a chunk that is longer than the axis. */
  lemma {:induction false} StagingHolds(src: nat, out: nat, i: nat, c: nat, chunk: nat, first: Doubles, last: Doubles,
                                        product: real, q: real)
    requires src > 0 && out > 0 && 0 < c <= chunk && i + c <= out
    requires Computed(first, src, out, i) && Computed(last, src, out, i + c - 1) && Sized(product, q, chunk, src, out)
    requires Small(src, out)
    ensures HostRange(last, src, out).1 - HostRange(first, src, out).0 < Up(q) + 2
  {
    hide HostRange, Computed, Quotient, Up, Near;
    if chunk < out {
      SmallProduct(src, out, chunk);
      CeilIsExact(q, chunk * src, out);
      RunIsShort(src, out, i, c, first, last);
      Scale(c, chunk, src);
      CeilRises(c * src, chunk * src, out);
    } else {
      WithinSource(first, src, out);
      WithinSource(last, src, out);
      LongChunk(src, out, chunk, product, q);
    }
  }

  lemma {:induction false} CeilRises(a: nat, b: nat, d: nat)
    requires d > 0 && a <= b
    ensures Ceil(a, d) <= Ceil(b, d)
  {
    CeilMeans(a, d, Ceil(a, d));
    CeilMeans(b, d, Ceil(b, d));
    if Ceil(b, d) < Ceil(a, d) {
      Next(Ceil(b, d), Ceil(a, d), d);
    }
  }

  lemma {:induction false} WithinSource(d: Doubles, src: nat, out: nat)
    requires src > 0 && out > 0
    ensures 0 <= HostRange(d, src, out).0 && HostRange(d, src, out).1 <= src
  {
    hide Up, Round;
  }

  /** A chunk no shorter than the axis makes a buffer for the whole source. */
  lemma {:induction false} LongChunk(src: nat, out: nat, chunk: nat, product: real, q: real)
    requires 0 < out <= chunk && 0 < src && Small(src, out) && Sized(product, q, chunk, src, out)
    ensures src <= Up(q)
  {
    hide Quotient, Up, Near;
    if chunk * src < UNITS {
      CeilIsExact(q, chunk * src, out);
      Scale(out, chunk, src);
      CeilMeans(out * src, out, src);
      assert out * src == src * out;
      CeilRises(out * src, chunk * src, out);
    } else {
      LongProduct((chunk * src) as real, product, q * out as real);
      assert src * out <= UNITS - 1;
      MoreThanLast(src, out, q);
      UpAbove(q, src);
    }
  }

  lemma {:induction false} LongProduct(c: real, p: real, x: real)
    requires c >= UNITS as real && Near(p, c) && Near(x, p)
    ensures x > UNITS as real - 2.0
  {
    assert p >= UNITS as real - 1.0;
  }

  lemma {:induction false} MoreThanLast(src: nat, out: nat, q: real)
    requires 0 < out && src * out <= UNITS - 1 && q * out as real > UNITS as real - 2.0
    ensures q > src as real - 1.0
  {
    var o, s := out as real, src as real;
    assert q * o == Mul(o, q);
    assert (src * out) as real == Mul(o, s);
    hide Mul;
    if q <= s - 1.0 {
      MulGrows(o, q, s - 1.0);
      MulMinus(o, s, 1.0);
      MulTwice(1.0, o);
    }
  }

  lemma {:induction false} UpAbove(q: real, src: nat)
    requires q > src as real - 1.0
    ensures src <= Up(q)
  {
  }

  /** No run of `c` output rows reads more than one row beyond its share of the source. */
  lemma {:induction false} RunIsShort(src: nat, out: nat, i: nat, c: nat, first: Doubles, last: Doubles)
    requires src > 0 && out > 0 && c > 0 && i + c <= out
    requires Computed(first, src, out, i) && Computed(last, src, out, i + c - 1) && Small(src, out)
    ensures HostRange(last, src, out).1 - HostRange(first, src, out).0 <= Ceil(c * src, out) + 1
  {
    hide HostRange, Computed, Quotient, Up, KernelRange, Round;
    if src >= out {
      KernelIsHost(first, src, out, i);
      KernelIsHost(last, src, out, i + c - 1);
      ChunkBound(src, out, i, c);
    } else {
      KernelHoldsNearest(first, src, out, i);
      KernelHoldsNearest(last, src, out, i + c - 1);
      RowsApart(src, out, i, c, first, last);
    }
  }

  lemma {:induction false} RowsApart(src: nat, out: nat, i: nat, c: nat, first: Doubles, last: Doubles)
    requires 0 < src < out && c > 0 && i + c <= out && 22 * out < UNITS
    requires Computed(first, src, out, i) && Computed(last, src, out, i + c - 1)
    ensures Round(last.coordinate) - Round(first.coordinate) <= Ceil(c * src, out)
  {
    hide Computed, Mul, Centre, Ceil, Round;
    var r0, r1, m := Round(first.coordinate), Round(last.coordinate), Ceil(c * src, out);
    CoordinateNear(first, src, out, i);
    CoordinateNear(last, src, out, i + c - 1);
    RoundNear(first.coordinate);
    RoundNear(last.coordinate);
    CentresApart(src, out, i, c);
    CeilMeans(c * src, out, m);
    if r1 - r0 >= m + 1 {
      Steps(out, m, first.coordinate, last.coordinate, c * src);
    }
  }

  lemma {:induction false} RoundNear(c: real)
    ensures c - 0.5 <= Round(c) as real <= c + 0.5
  {
  }

  lemma {:induction false} CentresApart(src: nat, out: nat, i: nat, c: nat)
    requires c > 0
    ensures Centre(src, out, i + c - 1) - Centre(src, out, i) == 2 * (c * src) - 2 * src
  {
  }

  /** Two coordinates `m` apart are as far apart on the scale of centres. */
  lemma {:induction false} Steps(out: nat, m: nat, c0: real, c1: real, span: nat)
    requires c1 - c0 >= m as real && span <= m * out
    ensures Mul(2.0 * out as real, c1) - Mul(2.0 * out as real, c0) >= 2.0 * span as real
  {
    hide Mul;
    var o := out as real;
    MulMinus(2.0 * o, c1, c0);
    MulGrows(2.0 * o, m as real, c1 - c0);
    MulOf(out, m);
  }

  lemma {:induction false} MulOf(out: nat, m: nat)
    ensures Mul(2.0 * out as real, m as real) == 2.0 * (m * out) as real
  {
    assert (m * out) as real == m as real * out as real;
  }

  // Frames

  /** A plane's frames when contracting come out the same whether the export divides integers or the
      projection divides doubles. */
  lemma {:induction false} FootprintFramesAreExact(src: nat, out: nat, z: nat, low: real, high: real)
    requires src >= out > 0 && z < out && Small(src, out)
    requires Quotient(low, z * src, out) && Quotient(high, (z + 1) * src, out)
    ensures Clipped(src, low.Floor, Up(high)) == (First(src, out, z), Stop(src, out, z))
  {
    hide Quotient, Up, Clipped, Small, First, Stop;
    EndsAreExact(low, high, src, out, z);
    FootprintsUnclipped(src, out, z);
  }

  /** And the nearest frame when expanding is the exact one, ties and all. */
  lemma {:induction false} NearestFrameIsExact(src: nat, out: nat, z: nat, position: real)
    requires 1 < src < out && z < out && Quotient(position, z * (src - 1), out - 1) && Small(2 * src, out)
    ensures Round(position) == RoundHalfEven(z * (src - 1), out - 1)
  {
    hide Quotient, Round, RoundHalfEven;
    SmallProduct(2 * src, out, z);
    Scale(src - 1, src, z);
    assert z * (2 * src) == 2 * (z * src);
    assert z * (src - 1) == (src - 1) * z && z * src == src * z;
    RoundIsExact(position, z * (src - 1), out - 1);
  }

  /** Beyond that it fails, for a whole family of axes: the middle frame lies below a tie by half a part in
      the length of the axis. Doubles of that size are one part in 2^26 apart, so the tie is the nearest one,
      and it goes up to the even frame. */
  lemma {:induction false} FrameRoundsAway(src: nat, z: nat, position: real)
    requires 0x0800_0000 < src < 0x1000_0000 && src % 4 == 3 && src == 2 * z - 1 && position == z as real - 0.5
    ensures var out, exact := src + 1, z * (src - 1);
      && z < out && 0x0400_0000 <= position.Floor < 0x0800_0000
      && Quotient(position, exact, out - 1) && position * src as real - exact as real == 0.5
      && 0.5 * 0x0800_0000 as real < src as real
      && Round(position) == RoundHalfEven(exact, out - 1) + 1
  {
    hide Quotient, Round, RoundHalfEven;
    MiddleRounds(z, src);
    MiddleQuotient(z, src);
    MiddleDiffers(z, src);
    HalfBelow(z);
  }

  /** The middle of an axis of odd length is half a row below a row, less half of one part in that length. */
  lemma {:induction false} Middle(z: nat, src: nat)
    requires src == 2 * z - 1
    ensures 2 * (z * (src - 1)) == src * src - 1 == (src - 1) * src + src - 1
    ensures z * (src - 1) == (z - 1) * src + (z - 1)
  {
    assert z * (src - 1) == 2 * (z * z) - 2 * z;
    assert (z - 1) * src == 2 * (z * z) - 3 * z + 1;
  }

  lemma {:induction false} MiddleRounds(z: nat, src: nat)
    requires src == 2 * z - 1 && z > 1 && z % 2 == 0
    ensures RoundHalfEven(z * (src - 1), src) == z - 1 && Round(z as real - 0.5) == z
  {
    Middle(z, src);
    HalfBelow(z);
    BelowHalf(z * (src - 1), z - 1, src);
  }

  lemma {:induction false} BelowHalf(n: nat, f: nat, d: nat)
    requires n == f * d + f && 2 * f < d
    ensures RoundHalfEven(n, d) == f
  {
    FloorMeans(n, d, f);
    assert n == (n / d) * d + n % d;
  }

  lemma {:induction false} MiddleDiffers(z: nat, src: nat)
    requires src == 2 * z - 1
    ensures (z as real - 0.5) * src as real - (z * (src - 1)) as real == 0.5
  {
    Middle(z, src);
    var s := src as real;
    assert z as real - 0.5 == s / 2.0;
    assert s * s == (src * src) as real;
  }

  lemma {:induction false} MiddleQuotient(z: nat, src: nat)
    requires src == 2 * z - 1 && src > 0x0800_0000
    ensures Quotient(z as real - 0.5, z * (src - 1), src)
  {
    var a := z * (src - 1);
    Middle(z, src);
    MiddleDiffers(z, src);
    SquareIsLong(src);
    HalfIsNear((z as real - 0.5) * src as real, a);
    NoMultiple(2 * a, src);
    hide Near;
  }

  lemma {:induction false} NoMultiple(n: nat, d: nat)
    requires d > 1 && n == (d - 1) * d + d - 1
    ensures n % d != 0
  {
    FloorMeans(n, d, d - 1);
    assert n == (n / d) * d + n % d;
  }

  lemma {:induction false} SquareIsLong(n: nat)
    requires n > 0x0800_0000
    ensures n * n > 2 * UNITS
  {
    assert n * n >= 0x0800_0001 * n;
  }

  lemma {:induction false} HalfIsNear(x: real, a: nat)
    requires x - a as real == 0.5 && 2 * a >= UNITS
    ensures Near(x, a as real)
  {
  }

  lemma {:induction false} HalfBelow(z: nat)
    requires z > 0
    ensures (z as real - 0.5).Floor == z - 1
  {
  }
}
